/** What a heartbeat must say to count, field by field (cmd/camstationd/routes_viewers.go, internal/store/viewer_update_validation.go). */
module HealthyBeats {
  import opened Options
  import opened CommitToken
  import opened UpdateGate

  // ---------- text ----------

  predicate Space(c: char) { c == ' ' || c == '\t' || c == '\n' || c == '\U{0b}' || c == '\U{0c}' || c == '\r' }

  predicate AllSpace(s: string) { forall i | 0 <= i < |s| :: Space(s[i]) }

  predicate SomeText(s: string) { exists i | 0 <= i < |s| :: !Space(s[i]) }

  /** r is s without the white space around it. */
  ghost predicate Stripped(s: string, r: string) {
    && (exists a, b :: s == a + r + b && AllSpace(a) && AllSpace(b))
    && (r != "" ==> !Space(r[0]) && !Space(r[|r| - 1]))
  }

  lemma BlankIsSpace(c: char)
    ensures Blank(c) <==> Space(c)
  {
  }

  lemma {:induction false} LeftStripped(s: string) returns (a: string)
    ensures s == a + TrimLeft(s) && AllSpace(a) && (TrimLeft(s) != "" ==> !Space(TrimLeft(s)[0]))
    decreases |s|
  {
    a := "";
    if s != [] {
      BlankIsSpace(s[0]);
      if Blank(s[0]) {
        var b := LeftStripped(s[1..]);
        a := [s[0]] + b;
      }
    }
  }

  lemma {:induction false} RightStripped(s: string) returns (b: string)
    ensures s == TrimRight(s) + b && AllSpace(b) && (TrimRight(s) != "" ==> !Space(TrimRight(s)[|TrimRight(s)| - 1]) && TrimRight(s)[0] == s[0])
    decreases |s|
  {
    b := "";
    if s != [] {
      var n := |s| - 1;
      BlankIsSpace(s[n]);
      if Blank(s[n]) {
        var c := RightStripped(s[..n]);
        b := c + [s[n]];
        assert s == TrimRight(s) + b;
      }
    }
  }

  lemma TrimStrips(s: string)
    ensures Stripped(s, Trim(s)) && (Trim(s) != "" <==> SomeText(s))
  {
    hide TrimLeft, TrimRight;
    var a := LeftStripped(s);
    var l := TrimLeft(s);
    var b := RightStripped(l);
    var r := Trim(s);
    assert s == a + r + b;
    assert Stripped(s, r) by { hide Space; }
    if r != "" { assert s[|a|] == r[0]; }
    if r == "" {
      assert s == a + b;
      forall i | 0 <= i < |s|
        ensures Space(s[i])
      {
        SplitSpace(a, b, i);
      }
    }
  }

  lemma SplitSpace(a: string, b: string, i: nat)
    requires AllSpace(a) && AllSpace(b) && i < |a + b|
    ensures Space((a + b)[i])
  {
  }

  /** The same letters up to case, ASCII only. */
  predicate SameFolded(a: string, b: string) {
    |a| == |b| && forall i | 0 <= i < |a| :: SameLetter(a[i], b[i])
  }

  predicate SameLetter(x: char, y: char) {
    x == y || ('A' <= x <= 'Z' && y as int == x as int + 32) || ('A' <= y <= 'Z' && x as int == y as int + 32)
  }

  lemma FoldsAlike(a: string, b: string)
    ensures EqualFold(a, b) <==> SameFolded(a, b)
  {
    if EqualFold(a, b) {
      assert |Lower(a)| == |a| && |Lower(b)| == |b|;
      forall i | 0 <= i < |a|
        ensures SameLetter(a[i], b[i])
      {
        assert Lower(a)[i] == Lower(b)[i];
      }
    }
    if SameFolded(a, b) {
      forall i | 0 <= i < |a|
        ensures LowerChar(a[i]) == LowerChar(b[i])
      {
        assert SameLetter(a[i], b[i]);
      }
    }
  }

  // ---------- what the store accepts ----------

  predicate AnyHex(c: char) { '0' <= c <= '9' || 'a' <= c <= 'f' || 'A' <= c <= 'F' }

  predicate Hex64(s: string) { |s| == 64 && forall i | 0 <= i < |s| :: AnyHex(s[i]) }

  predicate Acceptable(o: Observation, at: Time, lim: Limits) {
    && SomeText(o.viewer) && o.command > 0 && SomeText(o.payload) && SomeText(o.transaction) && o.generation > 0 && SomeText(o.version)
    && Hex64(Trim(o.artifact)) && lim.healthyFor > 0 && lim.maxGap > 0 && at != 0
  }

  lemma HexLowers(s: string)
    ensures |Lower(s)| == 64 && (forall c | c in Lower(s) :: HexDigit(c)) <==> Hex64(s)
  {
    if |Lower(s)| == 64 && forall c | c in Lower(s) :: HexDigit(c) {
      forall i | 0 <= i < |s|
        ensures AnyHex(s[i])
      {
        assert Lower(s)[i] in Lower(s);
      }
    }
    if Hex64(s) {
      forall c | c in Lower(s)
        ensures HexDigit(c)
      {
        var i :| 0 <= i < |s| && Lower(s)[i] == c;
        assert AnyHex(s[i]);
      }
    }
  }

  /** An observation is accepted exactly when every field is filled in, the digest is one, and limits and clock are set; a reset always is. */
  lemma AcceptedExactly(e: Event, lim: Limits)
    ensures Accepted(e, lim) <==> e.Reset? || Acceptable(e.o, e.at, lim)
  {
    if e.Observe? {
      TrimStrips(e.o.viewer);
      TrimStrips(e.o.payload);
      TrimStrips(e.o.transaction);
      TrimStrips(e.o.version);
      HexLowers(Trim(e.o.artifact));
      hide Trim, Lower, Stripped, SomeText, Hex64, HexDigit;
    }
  }

  /** One update goes on only under the same viewer, command, payload, transaction, generation, version and digest. */
  lemma SameUpdateMeans(a: Observation, b: Observation)
    ensures SameUpdate(a, b)
            <==> a.viewer == b.viewer && a.command == b.command && a.payload == b.payload && a.transaction == b.transaction
                 && a.generation == b.generation && a.version == b.version && a.artifact == b.artifact
  {
  }

  // ---------- what a heartbeat says ----------

  /** At most 15 seconds old, and at most 5 seconds ahead. */
  predicate Recent(at: Option<Time>, now: Time) {
    at.Some? && now - at.value <= 15_000_000_000 && at.value - now <= 5_000_000_000
  }

  /** The heartbeat reports that the installer of this very update is running. */
  predicate Reports(b: Heartbeat, c: Command) {
    && c.isUpdate && b.updateState == "installer_launched" && b.viewer == c.viewer && b.updateCommand == c.id && b.updatePayload == c.payload
    && b.updateGeneration == c.generation && b.updateVersion == c.version && SameFolded(b.updateArtifact, c.artifact)
  }

  /** The command is not running yet, and this heartbeat starts it. */
  predicate Starts(b: Heartbeat, c: Command) {
    (c.state == Pending || c.state == Delivered || c.state == Acknowledged) && Reports(b, c) && b.transaction == c.expectedKey
  }

  /** It would start it under another key than the one recorded. */
  predicate Conflicts(b: Heartbeat, c: Command) {
    Starts(b, c) && c.operationKey != "" && SomeText(b.transaction) && Trim(b.transaction) != c.operationKey
  }

  /** The command runs, from now or from before, under the key the heartbeat gives. */
  predicate InStep(b: Heartbeat, c: Command) {
    && Reports(b, c) && SomeText(b.transaction) && Lower(Trim(b.updateArtifact)) == c.artifact
    && (if c.state == Running then Trim(b.transaction) == c.operationKey else Starts(b, c) && !Conflicts(b, c))
  }

  /** Agent, control, viewer and renderer are as they should be. */
  predicate Well(b: Heartbeat, c: Command, now: Time) {
    && b.agentState == "online" && b.agentVersion == c.version && SameFolded(b.agentArtifact, c.artifact)
    && b.controlState == "online" && Recent(b.controlAt, now)
    && b.viewerState == "running" && Recent(b.viewerAt, now)
    && b.rendererState == "ready" && Recent(b.rendererAt, now)
  }

  lemma StartedMeans(b: Heartbeat, c: Command)
    ensures Started(b, c).None? <==> Conflicts(b, c)
    ensures Started(b, c).Some? ==>
              var d := Started(b, c).value;
              && (Exact(b, d) <==> InStep(b, c))
              && d.id == c.id && d.payload == c.payload && d.generation == c.generation && d.version == c.version && d.artifact == c.artifact
  {
    FoldsAlike(b.updateArtifact, c.artifact);
    TrimStrips(b.transaction);
    hide Trim, Lower, EqualFold, SameFolded, Stripped, SomeText;
  }

  lemma WellMeans(b: Heartbeat, c: Command, d: Command, now: Time)
    requires d.version == c.version && d.artifact == c.artifact
    ensures AllHealthy(b, d, now) <==> Well(b, c, now)
  {
    FoldsAlike(b.agentArtifact, c.artifact);
    hide EqualFold, SameFolded;
  }

  /**
   A heartbeat tells the validator nothing when its command is lost or its key
   conflicts, resets the window when it is not in step with a wanted update, and is an
   observation of that update otherwise, healthy exactly when all signals are well.
   */
  lemma BeatMeans(beat: Beat)
    ensures var b := beat.heartbeat;
            match beat.desired
            case NoRelease => EventOf(beat) == Some(Reset(b.viewer))
            case Lost => EventOf(beat) == None
            case Wanted(c) =>
              if Conflicts(b, c) then EventOf(beat) == None
              else if !InStep(b, c) then EventOf(beat) == Some(Reset(b.viewer))
              else EventOf(beat) == Some(Observe(Observation(b.viewer, c.id, c.payload, Trim(b.transaction), c.generation, c.version, c.artifact,
                                                             Well(b, c, beat.now)), beat.now, beat.drawn))
  {
    hide Started, Exact, AllHealthy, Well, InStep, Conflicts, Trim;
    if beat.desired.Wanted? {
      var b, c := beat.heartbeat, beat.desired.command;
      StartedMeans(b, c);
      if Started(b, c).Some? { WellMeans(b, c, Started(b, c).value, beat.now); }
    }
  }

  /** The window is thirty seconds of health with gaps of at most fifteen. */
  lemma WindowIs()
    ensures LIMITS.healthyFor == 30_000_000_000 && LIMITS.maxGap == 15_000_000_000
  {
  }
}
