/** The ingestion watcher and the API as one state machine: producers scan, copy, post and
    unlink; requests may be answered late, or never as far as the producer knows; clips may also
    be uploaded directly; and the retry scheduler moves the files of videos it gives up. */
module Ingestion {
  import opened Wrappers

  /** A clip's content hash and file extension; together they name its cold-storage copy. */
  datatype Clip = Clip(hash: int, ext: int)

  type Path = int

  /** Where the API side keeps a file: in cold storage, or in the failed folder under a name
      that holds the row's id too. */
  datatype Location = Cold(clip: Clip) | Buried(clip: Clip, row: nat)

  datatype Answer = Accepted | Duplicate | Refused

  /** Where one producer is with the clip it works on. */
  datatype Pc =
    | Idle
    | Scanned(path: Path, clip: Clip)
    | Copied(path: Path, clip: Clip)
    | Waiting(path: Path, clip: Clip, request: nat)
    | Answered(path: Path, clip: Clip)

  /** `storage` is `storage_uri`; `invalid` says that the scheduler has given the video up. */
  datatype VideoRow = VideoRow(hash: int, storage: Location, invalid: bool)

  datatype State = State(
    queue: map<Path, Clip>,
    unlinked: map<Path, Clip>,
    files: set<Location>,
    rows: seq<VideoRow>,
    inFlight: map<nat, Clip>,
    answers: map<nat, Answer>,
    producers: map<nat, Pc>)

  datatype Step =
    | Arrive(path: Path, clip: Clip)
    | Scan(producer: nat, path: Path)
    | Copy(producer: nat)
    | Post(producer: nat, request: nat)
    | Serve(request: nat, healthy: bool)
    | Receive(producer: nat)
    | GiveUp(producer: nat)
    | Unlink(producer: nat)
    | Upload(clip: Clip)
    | Bury(row: nat)

  function PcOf(s: State, producer: nat): Pc {
    if producer in s.producers then s.producers[producer] else Idle
  }

  function Goto(s: State, producer: nat, pc: Pc): State {
    s.(producers := s.producers[producer := pc])
  }

  predicate Known(rows: seq<VideoRow>, hash: int) {
    exists i :: 0 <= i < |rows| && rows[i].hash == hash
  }

  /** A file name is used for one clip only, and a request id for one request. A video is given
      up once: INVALID rows are never retried. */
  predicate Enabled(s: State, step: Step) {
    match step
    case Arrive(path, _) => path !in s.queue && path !in s.unlinked
    case Scan(producer, path) => PcOf(s, producer).Idle? && path in s.queue
    case Copy(producer) => PcOf(s, producer).Scanned?
    case Post(producer, request) => PcOf(s, producer).Copied? && request !in s.inFlight && request !in s.answers
    case Serve(request, _) => request in s.inFlight
    case Receive(producer) => PcOf(s, producer).Waiting? && PcOf(s, producer).request in s.answers
    case GiveUp(_) => true
    case Unlink(producer) => PcOf(s, producer).Answered?
    case Upload(_) => true
    case Bury(row) => row < |s.rows| && !s.rows[row].invalid
  }

  function Registered(clip: Clip): VideoRow {
    VideoRow(clip.hash, Cold(clip), false)
  }

  /** The API's side of one request: the file must be in cold storage, a known hash is refused
      with 406, and any other trouble is an error answer that leaves no row. */
  function Handle(s: State, clip: Clip, healthy: bool): (seq<VideoRow>, Answer) {
    if !healthy || Cold(clip) !in s.files then (s.rows, Refused)
    else if Known(s.rows, clip.hash) then (s.rows, Duplicate)
    else (s.rows + [Registered(clip)], Accepted)
  }

  /** A step that is not enabled changes nothing. */
  function Do(s: State, step: Step): State {
    if Enabled(s, step) then Move(s, step) else s
  }

  function Move(s: State, step: Step): State
    requires Enabled(s, step)
  {
    match step
    case Arrive(path, clip) => s.(queue := s.queue[path := clip])
    case Scan(producer, path) => Goto(s, producer, Scanned(path, s.queue[path]))
    case Copy(producer) =>
      var pc := PcOf(s, producer);
      if pc.path in s.queue
      then Goto(s.(files := s.files + {Cold(pc.clip)}), producer, Copied(pc.path, pc.clip))
      else Goto(s, producer, Idle)
    case Post(producer, request) =>
      var pc := PcOf(s, producer);
      Goto(s.(inFlight := s.inFlight[request := pc.clip]), producer, Waiting(pc.path, pc.clip, request))
    case Serve(request, healthy) =>
      var (rows, answer) := Handle(s, s.inFlight[request], healthy);
      s.(rows := rows, inFlight := s.inFlight - {request}, answers := s.answers[request := answer])
    case Receive(producer) =>
      var pc := PcOf(s, producer);
      Goto(s, producer, if s.answers[pc.request] == Refused then Idle else Answered(pc.path, pc.clip))
    case GiveUp(producer) => Goto(s, producer, Idle)
    case Unlink(producer) =>
      var pc := PcOf(s, producer);
      Goto(
        if pc.path in s.queue
        then s.(queue := s.queue - {pc.path}, unlinked := s.unlinked[pc.path := s.queue[pc.path]]) else s,
        producer, Idle)
    case Upload(clip) =>
      if Known(s.rows, clip.hash) then s
      else s.(files := s.files + {Cold(clip)}, rows := s.rows + [Registered(clip)])
    case Bury(row) => GiveUpVideo(s, row)
  }

  /** `mark_permanently_failed`: the file is moved, if it is there, and the row follows it. */
  function GiveUpVideo(s: State, row: nat): State
    requires row < |s.rows|
  {
    var v := s.rows[row];
    if v.storage in s.files then
      var to := Buried(v.storage.clip, row);
      s.(files := s.files - {v.storage} + {to}, rows := s.rows[row := v.(storage := to, invalid := true)])
    else s.(rows := s.rows[row := v.(invalid := true)])
  }

  const START := State(map[], map[], {}, [], map[], map[], map[])

  function Run(steps: seq<Step>): State {
    if steps == [] then START else Do(Run(steps[..|steps| - 1]), steps[|steps| - 1])
  }

  // ---------------------------------------------------------------- the invariant

  /** A copy exists: in cold storage, or where the clip's row was buried. */
  ghost predicate Stored(s: State, clip: Clip) {
    Cold(clip) in s.files ||
    exists i :: 0 <= i < |s.rows| && s.rows[i].storage == Buried(clip, i) && s.rows[i].storage in s.files
  }

  /** The clip is stored and registered. */
  ghost predicate Safe(s: State, clip: Clip) {
    Stored(s, clip) && Known(s.rows, clip.hash)
  }

  function ClipAt(s: State, path: Path): Option<Clip> {
    if path in s.queue then Some(s.queue[path])
    else if path in s.unlinked then Some(s.unlinked[path]) else None
  }

  ghost predicate PcOk(s: State, pc: Pc) {
    match pc
    case Idle => true
    case Scanned(path, clip) => ClipAt(s, path) == Some(clip)
    case Copied(path, clip) => ClipAt(s, path) == Some(clip) && Stored(s, clip)
    case Waiting(path, clip, request) =>
      && ClipAt(s, path) == Some(clip) && Stored(s, clip)
      && (request in s.inFlight ==> s.inFlight[request] == clip)
      && (request in s.inFlight || request in s.answers)
      && (request in s.answers && s.answers[request] != Refused ==> Known(s.rows, clip.hash))
    case Answered(path, clip) => ClipAt(s, path) == Some(clip) && Safe(s, clip)
  }

  /** One row per hash; each row's file is where the row says, in cold storage until the video
      is given up. */
  ghost predicate RowsOk(s: State) {
    && (forall i, j :: 0 <= i < j < |s.rows| ==> s.rows[i].hash != s.rows[j].hash)
    && (forall i :: 0 <= i < |s.rows| ==>
      && s.rows[i].storage in s.files
      && s.rows[i].storage.clip.hash == s.rows[i].hash
      && (if s.rows[i].invalid then s.rows[i].storage == Buried(s.rows[i].storage.clip, i)
          else s.rows[i].storage.Cold?))
  }

  ghost predicate Inv(s: State) {
    && s.queue.Keys !! s.unlinked.Keys
    && s.inFlight.Keys !! s.answers.Keys
    && RowsOk(s)
    && (forall path :: path in s.unlinked ==> Safe(s, s.unlinked[path]))
    && (forall p :: p in s.producers ==> PcOk(s, s.producers[p]))
  }

  /** No step takes back a stored clip, a registered hash, a clip's file name or an answer. */
  ghost predicate Grows(s: State, s': State) {
    && (forall clip :: Stored(s, clip) ==> Stored(s', clip))
    && (forall hash :: Known(s.rows, hash) ==> Known(s'.rows, hash))
    && (forall path :: ClipAt(s, path).Some? ==> ClipAt(s', path) == ClipAt(s, path))
    && (forall r :: r in s'.inFlight ==>
      if r in s.inFlight then s'.inFlight[r] == s.inFlight[r] else r !in s.answers)
    && (forall r :: r in s.inFlight ==>
      r in s'.inFlight || (r in s'.answers && (s'.answers[r] != Refused ==> Known(s'.rows, s.inFlight[r].hash))))
    && (forall r :: r in s.answers ==> r in s'.answers && s'.answers[r] == s.answers[r])
    && (forall r :: r in s.inFlight && r in s'.answers ==>
      s'.answers[r] != Refused ==> Known(s'.rows, s.inFlight[r].hash))
  }

  lemma PcKeeps(s: State, s': State, pc: Pc)
    requires s.inFlight.Keys !! s.answers.Keys && PcOk(s, pc) && Grows(s, s')
    ensures PcOk(s', pc)
  {
  }

  /** It is enough to look at the tables, and at a newly unlinked clip. */
  lemma GrowsKeeps(s: State, s': State)
    requires Inv(s) && Grows(s, s') && RowsOk(s') && s'.producers == s.producers
    requires s'.queue.Keys !! s'.unlinked.Keys && s'.inFlight.Keys !! s'.answers.Keys
    requires forall path :: path in s'.unlinked ==> Safe(s, s'.unlinked[path])
    ensures Inv(s')
  {
    hide Stored, Known, ClipAt, RowsOk;
    forall p | p in s'.producers ensures PcOk(s', s'.producers[p]) {
      PcKeeps(s, s', s.producers[p]);
    }
  }

  lemma GotoKeeps(s: State, producer: nat, pc: Pc)
    requires Inv(s) && PcOk(s, pc)
    ensures Inv(Goto(s, producer, pc))
    ensures Grows(s, Goto(s, producer, pc))
  {
    var s' := Goto(s, producer, pc);
    assert forall clip :: Stored(s, clip) <==> Stored(s', clip);
    forall p | p in s'.producers ensures PcOk(s', s'.producers[p]) {
      assert PcOk(s, s'.producers[p]);
    }
  }

  lemma StoredGrows(s: State, s': State, clip: Clip)
    requires s.files <= s'.files && s.rows <= s'.rows && Stored(s, clip)
    ensures Stored(s', clip)
  {
    if Cold(clip) !in s.files {
      var i :| 0 <= i < |s.rows| && s.rows[i].storage == Buried(clip, i) && s.rows[i].storage in s.files;
      assert s'.rows[i] == s.rows[i];
    }
  }

  lemma KnownGrows(rows: seq<VideoRow>, rows': seq<VideoRow>, hash: int)
    requires rows <= rows' && Known(rows, hash)
    ensures Known(rows', hash)
  {
    var i :| 0 <= i < |rows| && rows[i].hash == hash;
    assert rows'[i] == rows[i];
  }

  /** Adding files and rows only. */
  lemma MoreGrows(s: State, s': State)
    requires s.files <= s'.files && s.rows <= s'.rows
    ensures forall clip :: Stored(s, clip) ==> Stored(s', clip)
    ensures forall hash :: Known(s.rows, hash) ==> Known(s'.rows, hash)
  {
    forall clip | Stored(s, clip) ensures Stored(s', clip) {
      StoredGrows(s, s', clip);
    }
    forall hash | Known(s.rows, hash) ensures Known(s'.rows, hash) {
      KnownGrows(s.rows, s'.rows, hash);
    }
  }

  /** A request adds a row only for a new hash whose file is there, and both answers that are no
      errors mean that the hash is registered. */
  lemma HandleRegisters(s: State, clip: Clip, healthy: bool)
    ensures var (rows, answer) := Handle(s, clip, healthy);
      && s.rows <= rows && |rows| <= |s.rows| + 1
      && (answer != Refused ==> Known(rows, clip.hash))
      && (|rows| > |s.rows| ==>
        Cold(clip) in s.files && !Known(s.rows, clip.hash) && rows[|s.rows|] == Registered(clip))
  {
    var (rows, answer) := Handle(s, clip, healthy);
    if answer == Accepted {
      assert rows[|s.rows|].hash == clip.hash;
    }
  }

  lemma ServeKeeps(s: State, request: nat, healthy: bool)
    requires Inv(s) && Enabled(s, Serve(request, healthy))
    ensures var s' := Move(s, Serve(request, healthy)); Inv(s') && Grows(s, s')
  {
    var s' := Move(s, Serve(request, healthy));
    HandleRegisters(s, s.inFlight[request], healthy);
    MoreGrows(s, s');
    GrowsKeeps(s, s');
  }

  /** When only files and rows change. */
  lemma RowsKeep(s: State, s': State)
    requires Inv(s) && RowsOk(s') && s' == s.(files := s'.files, rows := s'.rows)
    requires forall clip :: Stored(s, clip) ==> Stored(s', clip)
    requires forall hash :: Known(s.rows, hash) ==> Known(s'.rows, hash)
    ensures Inv(s') && Grows(s, s')
  {
    hide Stored, Known, RowsOk;
    GrowsKeeps(s, s');
  }

  lemma UploadKeeps(s: State, clip: Clip)
    requires Inv(s)
    ensures var s' := Move(s, Upload(clip)); Inv(s') && Grows(s, s')
  {
    var s' := Move(s, Upload(clip));
    MoreGrows(s, s');
    UploadRows(s, clip);
    hide Inv, RowsOk, Stored, Grows;
    RowsKeep(s, s');
  }

  lemma UploadRows(s: State, clip: Clip)
    requires Inv(s)
    ensures RowsOk(Move(s, Upload(clip)))
  {
  }

  lemma BuryRows(s: State, row: nat)
    requires Inv(s) && Enabled(s, Bury(row))
    ensures var s' := Move(s, Bury(row));
      && s' == s.(files := s'.files, rows := s'.rows) && RowsOk(s')
      && |s'.rows| == |s.rows|
      && (forall i :: 0 <= i < |s.rows| ==> s'.rows[i].hash == s.rows[i].hash && (i != row ==> s'.rows[i] == s.rows[i]))
      && s'.rows[row].storage == Buried(s.rows[row].storage.clip, row)
      && s'.files == s.files - {s.rows[row].storage} + {s'.rows[row].storage}
      && s.rows[row].storage.Cold?
  {
  }

  /** The file of a video that is given up is still there, so it is moved. */
  lemma BuryKeeps(s: State, row: nat)
    requires Inv(s) && Enabled(s, Bury(row))
    ensures var s' := Move(s, Bury(row)); Inv(s') && Grows(s, s')
    ensures var s' := Move(s, Bury(row));
      s'.rows[row].storage == Buried(s.rows[row].storage.clip, row) && s'.rows[row].storage in s'.files
  {
    var s' := Move(s, Bury(row));
    BuryRows(s, row);
    hide Inv, Move, RowsOk, Grows;
    forall clip | Stored(s, clip) ensures Stored(s', clip) {
      if Cold(clip) !in s.files {
        var i :| 0 <= i < |s.rows| && s.rows[i].storage == Buried(clip, i) && s.rows[i].storage in s.files;
        assert s'.rows[i] == s.rows[i];
      }
    }
    forall hash | Known(s.rows, hash) ensures Known(s'.rows, hash) {
      var i :| 0 <= i < |s.rows| && s.rows[i].hash == hash;
      assert s'.rows[i].hash == hash;
    }
    RowsKeep(s, s');
  }

  lemma ArriveKeeps(s: State, path: Path, clip: Clip)
    requires Inv(s) && Enabled(s, Arrive(path, clip))
    ensures var s' := Move(s, Arrive(path, clip)); Inv(s') && Grows(s, s')
  {
    var s' := Move(s, Arrive(path, clip));
    MoreGrows(s, s');
    GrowsKeeps(s, s');
  }

  lemma UnlinkKeeps(s: State, producer: nat)
    requires Inv(s) && Enabled(s, Unlink(producer))
    ensures var s' := Move(s, Unlink(producer)); Inv(s') && Grows(s, s')
  {
    var pc := PcOf(s, producer);
    var s1 := if pc.path in s.queue
      then s.(queue := s.queue - {pc.path}, unlinked := s.unlinked[pc.path := s.queue[pc.path]]) else s;
    MoreGrows(s, s1);
    GrowsKeeps(s, s1);
    GotoKeeps(s1, producer, Idle);
  }

  lemma PostKeeps(s: State, producer: nat, request: nat)
    requires Inv(s) && Enabled(s, Post(producer, request))
    ensures var s' := Move(s, Post(producer, request)); Inv(s') && Grows(s, s')
  {
    var pc := PcOf(s, producer);
    var s1 := s.(inFlight := s.inFlight[request := pc.clip]);
    MoreGrows(s, s1);
    GrowsKeeps(s, s1);
    GotoKeeps(s1, producer, Waiting(pc.path, pc.clip, request));
  }

  lemma CopyKeeps(s: State, producer: nat)
    requires Inv(s) && Enabled(s, Copy(producer))
    ensures var s' := Move(s, Copy(producer)); Inv(s') && Grows(s, s')
  {
    var pc := PcOf(s, producer);
    var s1 := s.(files := s.files + {Cold(pc.clip)});
    MoreGrows(s, s1);
    RowsKeep(s, s1);
    GotoKeeps(s1, producer, Copied(pc.path, pc.clip));
    GotoKeeps(s, producer, Idle);
  }

  lemma ReceiveKeeps(s: State, producer: nat)
    requires Inv(s) && Enabled(s, Receive(producer))
    ensures var s' := Move(s, Receive(producer)); Inv(s') && Grows(s, s')
  {
    var pc := PcOf(s, producer);
    GotoKeeps(s, producer, if s.answers[pc.request] == Refused then Idle else Answered(pc.path, pc.clip));
  }

  lemma DoKeeps(s: State, step: Step)
    requires Inv(s)
    ensures Inv(Do(s, step)) && Grows(s, Do(s, step))
  {
    hide Inv, Grows, PcOk;
    if Enabled(s, step) {
      match step
      case Arrive(path, clip) => ArriveKeeps(s, path, clip);
      case Serve(request, healthy) => ServeKeeps(s, request, healthy);
      case Unlink(producer) => UnlinkKeeps(s, producer);
      case Post(producer, request) => PostKeeps(s, producer, request);
      case Copy(producer) => CopyKeeps(s, producer);
      case Receive(producer) => ReceiveKeeps(s, producer);
      case Upload(clip) => UploadKeeps(s, clip);
      case Bury(row) => BuryKeeps(s, row);
      case Scan(producer, path) => ScanKeeps(s, producer, path);
      case GiveUp(producer) => GiveUpKeeps(s, producer);
    } else {
      SameKeeps(s);
    }
  }

  lemma SameKeeps(s: State)
    requires Inv(s)
    ensures Grows(s, s)
  {
    MoreGrows(s, s);
  }

  lemma ScanKeeps(s: State, producer: nat, path: Path)
    requires Inv(s) && Enabled(s, Scan(producer, path))
    ensures var s' := Move(s, Scan(producer, path)); Inv(s') && Grows(s, s')
  {
    GotoKeeps(s, producer, Scanned(path, s.queue[path]));
  }

  lemma GiveUpKeeps(s: State, producer: nat)
    requires Inv(s)
    ensures var s' := Goto(s, producer, Idle); Inv(s') && Grows(s, s')
  {
    GotoKeeps(s, producer, Idle);
  }

  lemma {:induction false} RunInv(steps: seq<Step>)
    ensures Inv(Run(steps))
  {
    if steps != [] {
      RunInv(steps[..|steps| - 1]);
      DoKeeps(Run(steps[..|steps| - 1]), steps[|steps| - 1]);
    }
  }

  // ---------------------------------------------------------------- the promises

  function RowsWith(rows: seq<VideoRow>, hash: int): nat {
    if rows == [] then 0
    else RowsWith(rows[..|rows| - 1], hash) + (if rows[|rows| - 1].hash == hash then 1 else 0)
  }

  lemma {:induction false} RowsWithDistinct(rows: seq<VideoRow>, hash: int)
    requires forall i, j :: 0 <= i < j < |rows| ==> rows[i].hash != rows[j].hash
    ensures RowsWith(rows, hash) == if Known(rows, hash) then 1 else 0
  {
    if rows != [] {
      var n := |rows| - 1;
      RowsWithDistinct(rows[..n], hash);
      if Known(rows[..n], hash) {
        var i :| 0 <= i < n && rows[..n][i].hash == hash;
        assert rows[i].hash == hash;
      } else {
        assert forall i :: 0 <= i < n ==> rows[i] == rows[..n][i];
      }
    }
  }

  /** Neither lost nor doubled, after any interleaving of arrivals, producers, late answers,
      timeouts, uploads and given-up videos: a clip gone from the queue through `unlink` has
      exactly one row with its content hash, and a copy in cold storage, or else in the failed
      folder, under its own row's name, which is INVALID then. */
  lemma NoLostOrDoubledClip(steps: seq<Step>, path: Path) returns (i: nat)
    requires path in Run(steps).unlinked
    ensures var s := Run(steps);
      var clip := s.unlinked[path];
      && RowsWith(s.rows, clip.hash) == 1
      && i < |s.rows| && s.rows[i].hash == clip.hash
      && (Cold(clip) in s.files ||
        (s.rows[i].invalid && s.rows[i].storage == Buried(clip, i) && Buried(clip, i) in s.files))
  {
    RunInv(steps);
    var s := Run(steps);
    var clip := s.unlinked[path];
    RowsWithDistinct(s.rows, clip.hash);
    if Cold(clip) in s.files {
      i :| 0 <= i < |s.rows| && s.rows[i].hash == clip.hash;
    } else {
      i :| 0 <= i < |s.rows| && s.rows[i].storage == Buried(clip, i) && s.rows[i].storage in s.files;
    }
  }

  lemma SafeStep(s: State, step: Step, clip: Clip)
    requires Inv(s) && Safe(s, clip)
    ensures Safe(Do(s, step), clip)
  {
    hide Inv, Do, Stored;
    DoKeeps(s, step);
  }

  lemma RunNext(steps: seq<Step>, step: Step)
    ensures Run(steps + [step]) == Do(Run(steps), step)
  {
    assert (steps + [step])[..|steps|] == steps;
  }

  lemma {:induction false} SafeForGood(steps: seq<Step>, more: seq<Step>, clip: Clip)
    requires Safe(Run(steps), clip)
    ensures Safe(Run(steps + more), clip)
  {
    hide Inv, Do, Safe, Run;
    if more == [] {
      assert steps + more == steps;
    } else {
      var init, last := more[..|more| - 1], more[|more| - 1];
      SafeForGood(steps, init, clip);
      assert steps + more == steps + init + [last];
      RunNext(steps + init, last);
      RunInv(steps + init);
      SafeStep(Run(steps + init), last, clip);
    }
  }

  /** The order of events: whenever a producer is about to unlink, the file it will take is
      stored and registered already, and nothing that happens later takes either back. */
  lemma {:induction false} UnlinkComesLast(steps: seq<Step>, producer: nat, more: seq<Step>)
    requires Enabled(Run(steps), Unlink(producer))
    ensures var s, pc := Run(steps), PcOf(Run(steps), producer);
      && ClipAt(s, pc.path) == Some(pc.clip)
      && Safe(s, pc.clip) && Safe(Run(steps + more), pc.clip)
  {
    RunInv(steps);
    SafeForGood(steps, more, PcOf(Run(steps), producer).clip);
  }

  // ---------------------------------------------------------------- cold storage

  /** The step puts the clip into cold storage. */
  predicate Copies(s: State, step: Step, clip: Clip) {
    if step.Copy? then Enabled(s, step) && PcOf(s, step.producer).clip == clip && PcOf(s, step.producer).path in s.queue
    else step.Upload? && step.clip == clip && !Known(s.rows, clip.hash)
  }

  /** The step moves the clip's cold-storage copy away. */
  predicate Buries(s: State, step: Step, clip: Clip) {
    step.Bury? && Enabled(s, step) && s.rows[step.row].storage == Cold(clip)
  }

  ghost predicate BuriedFrom(steps: seq<Step>, k: nat, clip: Clip) {
    exists j :: k <= j < |steps| && Buries(Run(steps[..j]), steps[j], clip)
  }

  /** Copied, and not buried since. */
  ghost predicate CopyLasts(steps: seq<Step>, clip: Clip) {
    exists k :: 0 <= k < |steps| && Copies(Run(steps[..k]), steps[k], clip) && !BuriedFrom(steps, k + 1, clip)
  }

  lemma ColdStep(s: State, step: Step, clip: Clip)
    ensures Cold(clip) in Do(s, step).files <==>
      Copies(s, step, clip) || (Cold(clip) in s.files && !Buries(s, step, clip))
  {
    if Enabled(s, step) {
      match step
      case Bury(row) =>
      case Copy(producer) =>
      case Upload(_) =>
      case _ => KeepsFiles(s, step);
    }
  }

  lemma KeepsFiles(s: State, step: Step)
    requires Enabled(s, step) && !step.Bury? && !step.Copy? && !step.Upload?
    ensures Move(s, step).files == s.files
  {
  }

  lemma LastStep(steps: seq<Step>, clip: Clip)
    requires steps != []
    ensures var init := steps[..|steps| - 1];
      CopyLasts(steps, clip) <==>
        Copies(Run(init), steps[|init|], clip) || (CopyLasts(init, clip) && !Buries(Run(init), steps[|init|], clip))
  {
    hide Run, Copies, Buries;
    var init := steps[..|steps| - 1];
    assert forall k :: 0 <= k < |init| ==> init[..k] == steps[..k] && init[k] == steps[k];
    assert forall k :: 0 <= k <= |init| ==>
      (BuriedFrom(steps, k, clip) <==> BuriedFrom(init, k, clip) || Buries(Run(init), steps[|init|], clip));
  }

  /** Exactly when a clip has a copy in cold storage: some step put it there, and the video that
      owns the file has not been given up since. */
  lemma {:induction false} ColdIff(steps: seq<Step>, clip: Clip)
    ensures Cold(clip) in Run(steps).files <==> CopyLasts(steps, clip)
  {
    hide Do, CopyLasts, Copies, Buries;
    if steps == [] {
      NeverCopied(clip);
    } else {
      var init := steps[..|steps| - 1];
      ColdIff(init, clip);
      LastStep(steps, clip);
      ColdStep(Run(init), steps[|init|], clip);
    }
  }

  lemma NeverCopied(clip: Clip)
    ensures !CopyLasts([], clip)
  {
  }

  lemma Play(steps: seq<Step>, step: Step) returns (longer: seq<Step>)
    ensures longer == steps + [step] && Run(longer) == Do(Run(steps), step)
  {
    longer := steps + [step];
    RunNext(steps, step);
  }

  lemma FirstCopy(clip: Clip, path: Path) returns (steps: seq<Step>)
    ensures Run(steps) == State(map[path := clip], map[], {Cold(clip)}, [], map[], map[],
      map[0 := Copied(path, clip)])
  {
    assert Run([]) == START;
    hide Run;
    steps := Play([], Arrive(path, clip));
    steps := Play(steps, Scan(0, path));
    steps := Play(steps, Copy(0));
  }

  lemma FirstPost(clip: Clip, path: Path) returns (steps: seq<Step>)
    ensures Run(steps) == State(map[path := clip], map[], {Cold(clip)}, [], map[0 := clip], map[],
      map[0 := Waiting(path, clip, 0)])
  {
    steps := FirstCopy(clip, path);
    hide Run;
    steps := Play(steps, Post(0, 0));
  }

  lemma LostAnswer(clip: Clip, path: Path) returns (steps: seq<Step>)
    ensures Run(steps) == State(map[path := clip], map[], {Cold(clip)}, [Registered(clip)], map[],
      map[0 := Accepted], map[0 := Idle])
  {
    steps := FirstPost(clip, path);
    hide Run;
    steps := Play(steps, Serve(0, true));
    steps := Play(steps, GiveUp(0));
  }

  lemma Reposted(clip: Clip, path: Path) returns (steps: seq<Step>)
    ensures Run(steps) == State(map[path := clip], map[], {Cold(clip)}, [Registered(clip)], map[1 := clip],
      map[0 := Accepted], map[0 := Waiting(path, clip, 1)])
  {
    steps := LostAnswer(clip, path);
    hide Run;
    steps := Play(steps, Scan(0, path));
    steps := Play(steps, Copy(0));
    steps := Play(steps, Post(0, 1));
  }

  /** The copy can be gone from cold storage even before the source is unlinked: the answer to a
      first post is lost, the clip is posted again and refused as a duplicate, and meanwhile the
      last retry of its video fails. */
  lemma BuriedBeforeUnlink(clip: Clip, path: Path) returns (steps: seq<Step>)
    ensures var s := Run(steps);
      Enabled(s, Unlink(0)) && PcOf(s, 0) == Answered(path, clip) && Cold(clip) !in s.files
  {
    steps := Reposted(clip, path);
    hide Run;
    assert Run(steps).rows[0].hash == clip.hash;
    steps := Play(steps, Serve(1, true));
    steps := Play(steps, Bury(0));
    steps := Play(steps, Receive(0));
  }

  // ---------------------------------------------------------------- every clip can get through

  /** The source is gone from the queue, for good, and nothing else has changed but the producer. */
  lemma UnlinkEffect(s: State, producer: nat)
    requires Enabled(s, Unlink(producer)) && PcOf(s, producer).path in s.queue
    ensures var path, s' := PcOf(s, producer).path, Do(s, Unlink(producer));
      && path !in s'.queue && path in s'.unlinked && s'.unlinked[path] == s.queue[path]
      && s'.queue == s.queue - {path} && s'.unlinked == s.unlinked[path := s.queue[path]]
      && PcOf(s', producer) == Idle
      && s'.files == s.files && s'.rows == s.rows && s'.inFlight == s.inFlight && s'.answers == s.answers
  {
  }

  /** The answer to a request: an error if the server is in trouble or the file is gone, a
      duplicate if some row has the hash, and otherwise acceptance, the only one that adds a
      row. */
  lemma ServeEffect(s: State, request: nat, healthy: bool)
    requires request in s.inFlight
    ensures var clip, s' := s.inFlight[request], Do(s, Serve(request, healthy));
      && request !in s'.inFlight && request in s'.answers
      && (s'.answers[request] == Refused <==> !healthy || Cold(clip) !in s.files)
      && (s'.answers[request] == Duplicate <==> healthy && Cold(clip) in s.files && Known(s.rows, clip.hash))
      && s'.rows == s.rows +
        (if s'.answers[request] == Accepted then [VideoRow(clip.hash, Cold(clip), false)] else [])
      && s'.files == s.files && s'.queue == s.queue && s'.unlinked == s.unlinked
  {
  }

  /** An error answer sends the producer back to its scan; both others let it unlink. */
  lemma ReceiveEffect(s: State, producer: nat)
    requires Enabled(s, Receive(producer))
    ensures var pc := PcOf(s, producer);
      Do(s, Receive(producer)) == s.(producers := s.producers[producer :=
        if s.answers[pc.request] == Refused then Idle else Answered(pc.path, pc.clip)])
  {
  }

  /** A direct upload of a new clip leaves a file in cold storage and a row that points at it; of
      a known one, nothing. */
  lemma UploadEffect(s: State, clip: Clip)
    ensures var s' := Do(s, Upload(clip));
      if exists i :: 0 <= i < |s.rows| && s.rows[i].hash == clip.hash then s' == s
      else s' == s.(files := s.files + {Cold(clip)}, rows := s.rows + [VideoRow(clip.hash, Cold(clip), false)])
  {
  }

  /** Giving a video up in a reachable state moves its file out of cold storage, under the row's
      own name, and the row follows it and is INVALID. */
  lemma BuryEffect(steps: seq<Step>, row: nat)
    requires row < |Run(steps).rows| && !Run(steps).rows[row].invalid
    ensures var s, s' := Run(steps), Do(Run(steps), Bury(row));
      var v := s.rows[row];
      && v.storage.Cold? && v.storage in s.files
      && s' == s.(
        files := s.files - {v.storage} + {Buried(v.storage.clip, row)},
        rows := s.rows[row := VideoRow(v.hash, Buried(v.storage.clip, row), true)])
  {
    RunInv(steps);
  }

  lemma AboveAll(used: set<nat>) returns (n: nat)
    ensures forall m :: m in used ==> m < n
  {
    n := 0;
    if used != {} {
      var m :| m in used;
      var rest := AboveAll(used - {m});
      n := if m < rest then rest else m + 1;
      assert forall k :: k in used ==> k == m || k in used - {m};
    }
  }

  /** Producer 0 has copied the clip at `path` and posted it as `request`. */
  lemma CopyAndPost(steps: seq<Step>, path: Path, request: nat) returns (longer: seq<Step>)
    requires path in Run(steps).queue && request !in Run(steps).inFlight && request !in Run(steps).answers
    ensures var s, s' := Run(steps), Run(longer);
      s' == s.(files := s.files + {Cold(s.queue[path])}, inFlight := s.inFlight[request := s.queue[path]],
        producers := s.producers[0 := Waiting(path, s.queue[path], request)])
  {
    hide Run;
    longer := Play(steps, GiveUp(0));
    longer := Play(longer, Scan(0, path));
    longer := Play(longer, Copy(0));
    longer := Play(longer, Post(0, request));
    var s := Run(steps);
    assert s.producers[0 := Idle][0 := Scanned(path, s.queue[path])][0 := Copied(path, s.queue[path])]
      [0 := Waiting(path, s.queue[path], request)] == s.producers[0 := Waiting(path, s.queue[path], request)];
  }

  /** No clip is ever stuck in the queue: whatever has happened, one undisturbed pass of a
      producer over it ends with the clip unlinked, its new request answered by acceptance if the
      hash was new and as a duplicate if it was not. */
  lemma AlwaysDeliverable(steps: seq<Step>, path: Path) returns (longer: seq<Step>, request: nat)
    requires path in Run(steps).queue
    ensures var s, s' := Run(steps), Run(longer);
      var clip := s.queue[path];
      && path !in s'.queue && path in s'.unlinked && s'.unlinked[path] == clip
      && request !in s.answers && request in s'.answers
      && s'.answers[request] == (if Known(s.rows, clip.hash) then Duplicate else Accepted)
      && s'.rows == s.rows +
        (if Known(s.rows, clip.hash) then [] else [VideoRow(clip.hash, Cold(clip), false)])
  {
    var s := Run(steps);
    request := AboveAll(s.inFlight.Keys + s.answers.Keys);
    longer := CopyAndPost(steps, path, request);
    hide Run;
    ServeEffect(Run(longer), request, true);
    longer := Play(longer, Serve(request, true));
    longer := Play(longer, Receive(0));
    UnlinkEffect(Run(longer), 0);
    longer := Play(longer, Unlink(0));
  }

  /** So both ways of getting through occur, for every clip: accepted the first time, and, when
      that answer is lost, as a duplicate the second time. */
  lemma DeliveredBothWays(clip: Clip, path: Path)
    returns (first: seq<Step>, second: seq<Step>, r1: nat, r2: nat)
    ensures var s := Run(first);
      path in s.unlinked && s.unlinked[path] == clip && r1 in s.answers && s.answers[r1] == Accepted
    ensures var s := Run(second);
      path in s.unlinked && s.unlinked[path] == clip && r2 in s.answers && s.answers[r2] == Duplicate
  {
    assert Run([]) == START;
    first := Play([], Arrive(path, clip));
    second := LostAnswer(clip, path);
    hide Run;
    assert Run(second).rows[0].hash == clip.hash;
    first, r1 := AlwaysDeliverable(first, path);
    second, r2 := AlwaysDeliverable(second, path);
  }

  // ---------------------------------------------------------------- conservation

  /** The clips that arrived, by file name. */
  function Arrivals(steps: seq<Step>): map<Path, Clip> {
    if steps == [] then map[]
    else
      var init, last := steps[..|steps| - 1], steps[|steps| - 1];
      if last.Arrive? && Enabled(Run(init), last) then Arrivals(init)[last.path := last.clip] else Arrivals(init)
  }

  /** Every clip that ever arrived is accounted for with its content: it is still queued, or it
      was unlinked, and not both. */
  lemma {:induction false} ArrivalsConserved(steps: seq<Step>)
    ensures Run(steps).queue + Run(steps).unlinked == Arrivals(steps)
    ensures Run(steps).queue.Keys !! Run(steps).unlinked.Keys
  {
    RunInv(steps);
    if steps != [] {
      var s, step := Run(steps[..|steps| - 1]), steps[|steps| - 1];
      ArrivalsConserved(steps[..|steps| - 1]);
      RunInv(steps[..|steps| - 1]);
      StepConserves(s, step);
    }
  }

  lemma StepConserves(s: State, step: Step)
    requires Inv(s)
    ensures var s' := Do(s, step);
      s'.queue + s'.unlinked ==
        if step.Arrive? && Enabled(s, step) then (s.queue + s.unlinked)[step.path := step.clip]
        else s.queue + s.unlinked
  {
  }
}
