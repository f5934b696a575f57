/** What opening, rotating and writing do to files that are there already, file by file (internal/opslog/rotate.go). */
module LogStart {
  import opened Bytes
  import opened Options
  import opened LogRotation

  /** Every retained file is one number further on, the last one is gone, and the log is empty; files beyond the retained range stay. */
  ghost predicate MovedOn(was: map<nat, bytes>, now: map<nat, bytes>, retained: int) {
    && 0 in now && now[0] == []
    && (forall i: nat | 0 < i < retained :: (i in now <==> i - 1 in was) && (i in now ==> now[i] == was[i - 1]))
    && (forall i: nat | retained <= i :: (i in now <==> i in was) && (i in now ==> now[i] == was[i]))
  }

  /** Only the log itself changes. */
  ghost predicate OnlyLog(was: map<nat, bytes>, now: map<nat, bytes>) {
    forall i: nat | i > 0 :: (i in now <==> i in was) && (i in now ==> now[i] == was[i])
  }

  lemma RotatedAt(files: map<nat, bytes>, lim: Limits, i: nat)
    requires Sensible(lim)
    ensures var now := Rotated(files, lim).files;
            Lookup(now, i) == if i == 0 then Some([]) else if i < lim.retained then Lookup(files, i - 1) else Lookup(files, i)
  {
    ShiftedAt(files, lim.retained, i);
    ShiftedAt(files, lim.retained, 0);
    hide Shifted;
  }

  /** A rotation moves every file on by one and leaves an empty log. */
  lemma RotatedMeans(files: map<nat, bytes>, lim: Limits)
    requires Sensible(lim)
    ensures MovedOn(files, Rotated(files, lim).files, lim.retained) && Rotated(files, lim).size == Some(0)
  {
    hide Shifted;
    var now := Rotated(files, lim).files;
    RotatedAt(files, lim, 0);
    forall i: nat | 0 < i < lim.retained
      ensures (i in now <==> i - 1 in files) && (i in now ==> now[i] == files[i - 1])
    {
      RotatedAt(files, lim, i);
    }
    forall i: nat | lim.retained <= i
      ensures (i in now <==> i in files) && (i in now ==> now[i] == files[i])
    {
      RotatedAt(files, lim, i);
    }
    ShiftedAt(files, lim.retained, 0);
  }

  /** A log that is longer than it may be is rotated away when it is opened; any other is gone on with, and a missing one created. */
  lemma StartedMeans(files: map<nat, bytes>, lim: Limits)
    requires Sensible(lim)
    ensures var l := Started(files, lim);
            if 0 in files && |files[0]| > lim.maxBytes then MovedOn(files, l.files, lim.retained) && l.size == Some(0)
            else
              && OnlyLog(files, l.files) && 0 in l.files && l.files[0] == (if 0 in files then files[0] else [])
              && l.size == Some(|l.files[0]|)
  {
    hide Rotated;
    if 0 in files && |files[0]| > lim.maxBytes { RotatedMeans(files, lim); }
  }

  /**
   A record is written whole when the log is open and the record no longer than a file
   may be: behind the log when it fits there, and into a new log otherwise.
   */
  lemma WriteMeans(l: Log, data: bytes, lim: Limits)
    requires Sensible(lim) && (l.size.Some? ==> 0 in l.files && l.size == Some(|l.files[0]|))
    ensures Fits(l, data, lim) <==> l.size.Some? && |data| <= lim.maxBytes
    ensures Fits(l, data, lim) ==>
              var now := Written(l, data, lim);
              && 0 in now.files && now.size == Some(|now.files[0]|) && |now.files[0]| <= lim.maxBytes
              && (if |l.files[0]| + |data| <= lim.maxBytes then OnlyLog(l.files, now.files) && now.files[0] == l.files[0] + data
                  else MovedOn(l.files, now.files[0 := []], lim.retained) && now.files[0] == data)
  {
    hide Shifted;
    if Fits(l, data, lim) && |l.files[0]| + |data| > lim.maxBytes {
      RotatedMeans(l.files, lim);
      var r := Rotated(l.files, lim);
      var now := Written(l, data, lim);
      assert [] + data == data && r.files[0] == [];
      assert now == Appended(r, data) && now.files[0 := []] == r.files;
    }
  }
}
