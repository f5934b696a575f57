/** The one right answer to "what was this camera recording at this instant?" (cmd/camstationd/routes_playback.go), by the rows of the tables alone. */
module Resolution {
  import opened Bytes
  import opened Options
  import opened RecordingIndex
  import opened PlaybackDb

  datatype Answer =
    | Place(id: int, mediaStart: real, requestedOffset: real)
    | Unsupported
    | NoFragments
    | Gap(previousAt: Option<int>, nextAt: Option<int>)
    | EdgeWait(previousAt: Option<int>, nextAt: Option<int>)

  /** A span of the camera: a file with cached times that is ready, recording, finalizing or failed. */
  predicate Shown(db: Db, camera: int, id: int) {
    && id in db.segments && db.segments[id].camera == camera
    && db.segments[id].startMs.Some? && db.segments[id].endMs.Some?
    && (db.segments[id].status == Ready || db.segments[id].status == Recording || db.segments[id].status == Finalizing || db.segments[id].status == FailedFile)
  }

  function StartOf(db: Db, id: int): int { if id in db.segments && db.segments[id].startMs.Some? then db.segments[id].startMs.value else 0 }

  function EndOf(db: Db, id: int): int { if id in db.segments && db.segments[id].endMs.Some? then db.segments[id].endMs.value else 0 }

  predicate Holds(db: Db, camera: int, at: int, id: int) { Shown(db, camera, id) && StartOf(db, id) <= at < EndOf(db, id) }

  /** Of the spans that hold the instant, the one that starts last answers; of those that start together, the one of the highest number. */
  ghost predicate Chosen(db: Db, camera: int, at: int, id: int) {
    && Holds(db, camera, at, id)
    && forall j | Holds(db, camera, at, j) && j != id :: StartOf(db, j) < StartOf(db, id) || (StartOf(db, j) == StartOf(db, id) && j < id)
  }

  /** "avc1", "hvc1" or "hev1". */
  predicate BrowserCodec(codec: bytes) {
    codec == [0x61, 0x76, 0x63, 0x31] || codec == [0x68, 0x76, 0x63, 0x31] || codec == [0x68, 0x65, 0x76, 0x31]
  }

  predicate PlaysInBrowser(db: Db, id: int) { id in db.media && BrowserCodec(db.media[id].codec) }

  predicate HasRows(db: Db, id: int) { exists k | k in db.fragments :: k.0 == id }

  /** The fragment row of the file with the lowest sequence number. */
  predicate FirstRow(db: Db, id: int, sequence: int) {
    (id, sequence) in db.fragments && forall k | k in db.fragments && k.0 == id :: sequence <= k.1
  }

  /** The media of a fragmented file starts with its first fragment, that of any other file at zero. */
  ghost predicate StartsAt(db: Db, id: int, start: real)
    requires id in db.segments
  {
    if db.segments[id].fragmented then
      exists sequence :: FirstRow(db, id, sequence) && start == db.fragments[(id, sequence)].mediaStartMs as real / 1000.0
    else start == 0.0
  }

  /** Nothing is there: the last instant played before, and the first one after. */
  ghost predicate NothingThere(db: Db, camera: int, at: int, previous: Option<int>, next: Option<int>) {
    && (forall id :: !Holds(db, camera, at, id))
    && (forall id | Shown(db, camera, id) && EndOf(db, id) <= at :: previous.Some? && EndOf(db, id) - 1 <= previous.value)
    && (previous.Some? ==> exists id :: Shown(db, camera, id) && EndOf(db, id) <= at && previous.value == EndOf(db, id) - 1)
    && (forall id | Shown(db, camera, id) && at < StartOf(db, id) :: next.Some? && next.value <= StartOf(db, id))
    && (next.Some? ==> exists id :: Shown(db, camera, id) && at < StartOf(db, id) && next.value == StartOf(db, id))
  }

  /** A recording of the camera is under way that started by then. */
  predicate UnderWay(db: Db, camera: int, at: int, id: int) {
    && id in db.segments && db.segments[id].camera == camera
    && (db.segments[id].status == Recording || db.segments[id].status == Finalizing)
    && db.segments[id].tsStart <= at as real / 1000.0
  }

  /** The instant is behind every span, at most five seconds ahead of the clock, and being recorded. */
  ghost predicate BeingRecorded(db: Db, camera: int, at: int, now: int) {
    && at <= now + 5000 && (forall id | Shown(db, camera, id) :: EndOf(db, id) <= at && StartOf(db, id) <= at)
    && exists id :: UnderWay(db, camera, at, id)
  }

  ghost predicate AnswerRight(db: Db, camera: int, at: int, now: int, a: Answer) {
    match a
    case Place(id, start, offset) =>
      && Chosen(db, camera, at, id) && (db.segments[id].fragmented ==> PlaysInBrowser(db, id))
      && StartsAt(db, id, start) && offset == start + (at - StartOf(db, id)) as real / 1000.0
    case Unsupported => exists id :: Chosen(db, camera, at, id) && db.segments[id].fragmented && !PlaysInBrowser(db, id)
    case NoFragments => exists id :: Chosen(db, camera, at, id) && db.segments[id].fragmented && PlaysInBrowser(db, id) && !HasRows(db, id)
    case Gap(previous, next) => NothingThere(db, camera, at, previous, next) && !BeingRecorded(db, camera, at, now)
    case EdgeWait(previous, next) => NothingThere(db, camera, at, previous, next) && BeingRecorded(db, camera, at, now)
  }

  lemma ChosenOnce(db: Db, camera: int, at: int, i: int, j: int)
    requires Chosen(db, camera, at, i) && Chosen(db, camera, at, j)
    ensures i == j
  {
  }

  lemma StartsOnce(db: Db, id: int, a: real, b: real)
    requires id in db.segments && StartsAt(db, id, a) && StartsAt(db, id, b)
    ensures a == b
  {
    if db.segments[id].fragmented {
      var i :| FirstRow(db, id, i) && a == db.fragments[(id, i)].mediaStartMs as real / 1000.0;
      var j :| FirstRow(db, id, j) && b == db.fragments[(id, j)].mediaStartMs as real / 1000.0;
      assert (id, i).0 == id && (id, j).0 == id;
    }
  }

  lemma StartsWithRows(db: Db, id: int, a: real)
    requires id in db.segments && db.segments[id].fragmented && StartsAt(db, id, a)
    ensures HasRows(db, id)
  {
    var i :| FirstRow(db, id, i) && a == db.fragments[(id, i)].mediaStartMs as real / 1000.0;
    assert (id, i).0 == id;
  }

  lemma NeighboursOnce(db: Db, camera: int, at: int, p: Option<int>, n: Option<int>, q: Option<int>, m: Option<int>)
    requires NothingThere(db, camera, at, p, n) && NothingThere(db, camera, at, q, m)
    ensures p == q && n == m
  {
  }

  /** No two answers are right at once. */
  lemma AnswersUnique(db: Db, camera: int, at: int, now: int, a: Answer, b: Answer)
    requires AnswerRight(db, camera, at, now, a) && AnswerRight(db, camera, at, now, b)
    ensures a == b
  {
    hide StartsAt, HasRows, BeingRecorded, PlaysInBrowser;
    if a.Gap? || a.EdgeWait? || b.Gap? || b.EdgeWait? {
      SilentOrNot(db, camera, at, now, a, b);
      NeighboursOnce(db, camera, at, a.previousAt, a.nextAt, b.previousAt, b.nextAt);
    } else {
      var i, j := ChosenOf(db, camera, at, now, a), ChosenOf(db, camera, at, now, b);
      ChosenOnce(db, camera, at, i, j);
      hide Chosen;
      if a.Place? && b.Place? { StartsOnce(db, i, a.mediaStart, b.mediaStart); }
      if a.Place? && db.segments[i].fragmented { StartsWithRows(db, i, a.mediaStart); }
      if b.Place? && db.segments[i].fragmented { StartsWithRows(db, i, b.mediaStart); }
    }
  }

  lemma SilentOrNot(db: Db, camera: int, at: int, now: int, a: Answer, b: Answer)
    requires AnswerRight(db, camera, at, now, a) && AnswerRight(db, camera, at, now, b) && (a.Gap? || a.EdgeWait? || b.Gap? || b.EdgeWait?)
    ensures (a.Gap? && b.Gap?) || (a.EdgeWait? && b.EdgeWait?)
    ensures NothingThere(db, camera, at, a.previousAt, a.nextAt) && NothingThere(db, camera, at, b.previousAt, b.nextAt)
  {
    hide StartsAt, HasRows, BeingRecorded, PlaysInBrowser;
  }

  /** The file an answer is about. */
  ghost function ChosenOf(db: Db, camera: int, at: int, now: int, a: Answer): (id: int)
    requires AnswerRight(db, camera, at, now, a) && (a.Place? || a.Unsupported? || a.NoFragments?)
    ensures Chosen(db, camera, at, id)
    ensures a.Place? ==> id == a.id
    ensures a.Unsupported? ==> db.segments[id].fragmented && !PlaysInBrowser(db, id)
    ensures a.NoFragments? ==> db.segments[id].fragmented && PlaysInBrowser(db, id) && !HasRows(db, id)
  {
    match a
    case Place(id, _, _) => id
    case Unsupported => var id :| Chosen(db, camera, at, id) && db.segments[id].fragmented && !PlaysInBrowser(db, id); id
    case NoFragments => var id :| Chosen(db, camera, at, id) && db.segments[id].fragmented && PlaysInBrowser(db, id) && !HasRows(db, id); id
  }
}
