/** The resume and truncate protocol for targets given by file name: what is in the file when a
    transfer is at last reported as finished. */
module Resume {
  import opened Wrappers

  const MAXIMAL_RESUME_COUNT := 1  // LR_DOWNLOADER_MAXIMAL_RESUME_COUNT

  /** The file on disk, whether it carries the librepo attribute, and the fields of the target.
      offset -1 means "determine it from the file". */
  datatype State = State(file: seq<byte>, marked: bool, resume: bool, offset: int, count: nat)

  /** What does not change: the content the mirrors serve, whether the caller asked for resuming, and
      whether the file system stores extended attributes. */
  datatype World = World(content: seq<byte>, wantsResume: bool, canMark: bool)

  function Zeros(n: nat): seq<byte> {
    seq(n, _ => 0)
  }

  /** truncate and ftruncate, which also extend. */
  function Truncate(file: seq<byte>, n: nat): seq<byte> {
    if n <= |file| then file[..n] else file + Zeros(n - |file|)
  }

  /** Writing at a position, over what is there and past the end if need be. */
  function WriteAt(file: seq<byte>, pos: nat, data: seq<byte>): seq<byte> {
    if data == [] then file
    else Truncate(file, pos) + data + (if pos + |data| < |file| then file[pos + |data|..] else [])
  }

  /** How a transfer ends: completely; by a connection error after part of what was asked for; or by an
      error that shows that what was written is garbage. */
  datatype Attempt = Complete | Broken(data: seq<byte>) | Garbage(data: seq<byte>)

  /** Opening the file and choosing the offset; the result is the new state, the offset asked of the
      server, and the position of the next write. */
  function Prepare(w: World, s: State): (State, nat, nat)
    requires s.offset >= -1
  {
    var file := if s.resume then s.file else [];
    var marked := s.marked || w.canMark;
    if !s.resume || s.count >= MAXIMAL_RESUME_COUNT then (State(file, marked, false, s.offset, s.count), 0, 0)
    else
      var offset := if s.offset == -1 then |file| else s.offset;
      var count := if offset > 0 then s.count + 1 else s.count;
      // Without the mark the file is emptied, but the write position stays where it was.
      if offset > 0 && !s.marked then (State([], marked, false, 0, count), 0, offset)
      else (State(file, marked, true, offset, count), offset, offset)
  }

  /** After an error, when the target is tried again. */
  function Retry(w: World, s: State, keep: bool): State {
    if w.wantsResume && keep then s.(offset := -1)
    else s.(file := Truncate(s.file, if s.offset > -1 then s.offset else 0))
  }

  /** What a server with the content can deliver from an offset. */
  ghost predicate Possible(w: World, from: nat, a: Attempt) {
    match a
    case Complete => from <= |w.content|
    case Broken(data) => if from <= |w.content| then data <= w.content[from..] else data == []
    case Garbage(_) => true
  }

  function Received(w: World, from: nat, a: Attempt): seq<byte> {
    match a
    case Complete => if from <= |w.content| then w.content[from..] else []
    case Broken(data) => data
    case Garbage(data) => data
  }

  function Step(w: World, s: State, a: Attempt): (r: State)
    requires s.offset >= -1
    ensures r.offset >= -1
  {
    var (s1, from, pos) := Prepare(w, s);
    var s2 := s1.(file := WriteAt(s1.file, pos, Received(w, from, a)));
    if a.Complete? then s2.(marked := false) else Retry(w, s2, a.Broken?)
  }

  /** A target whose transfer is tried again and again until it finishes. */
  class Transfer {
    const world: World
    var file: seq<byte>
    var marked: bool
    var resume: bool
    var originalOffset: int
    var resumeCount: nat

    constructor (world: World, file: seq<byte>, marked: bool)
      ensures this.world == world && View() == Start(world, file, marked)
    {
      this.world, this.file, this.marked := world, file, marked;
      resume, originalOffset, resumeCount := world.wantsResume, -1, 0;
    }

    ghost function View(): State
      reads this
    {
      State(file, marked, resume, originalOffset, resumeCount)
    }

    /** open_target_file and the resume part of prepare_next_transfer; emptying a file that cannot be resumed
        may fail, which ends the download. */
    method Open() returns (ok: bool, from: nat, pos: nat)
      requires originalOffset >= -1
      modifies this
      ensures ok ==> (View(), from, pos) == Prepare(world, old(View()))
      ensures !ok ==> file == old(file) && old(resume) && !old(marked) && file != [] && originalOffset >= -1
    {
      ok := true;
      if !resume {
        file := [];
      }
      from, pos := 0, 0;
      if resume && resumeCount >= MAXIMAL_RESUME_COUNT {
        resume := false;
      }
      if resume {
        if originalOffset == -1 {
          pos := |file|;
          originalOffset := |file|;
        } else if originalOffset > 0 {
          pos := originalOffset;
        }
        if originalOffset > 0 {
          resumeCount := resumeCount + 1;
        }
        if originalOffset > 0 && !marked {
          resume := false;
          var refused: bool := *;
          if refused && file != [] {
            return false, 0, 0;
          }
          file := [];
          originalOffset := 0;
        } else {
          from := originalOffset;
        }
      }
      if world.canMark {
        marked := true;
      }
    }

    /** truncate_transfer_file, which may fail */
    method TruncateTransferFile() returns (ok: bool)
      modifies this`file
      ensures file == if ok then Truncate(old(file), if originalOffset > -1 then originalOffset else 0) else old(file)
    {
      var refused: bool := *;
      if refused {
        return false;
      }
      var offset := 0;
      if originalOffset > -1 {
        offset := originalOffset;
      }
      file := Truncate(file, offset);
      ok := true;
    }

    /** A whole attempt: open, receive, and finish or prepare for the next try, unless truncating fails and
        ends the download. */
    method Try(a: Attempt) returns (ok: bool)
      requires originalOffset >= -1
      modifies this
      ensures originalOffset >= -1 && (ok ==> View() == Step(world, old(View()), a))
    {
      var from, pos;
      ok, from, pos := Open();
      if !ok {
        return;
      }
      file := WriteAt(file, pos, Received(world, from, a));
      if a.Complete? {
        marked := false;
      } else if world.wantsResume && a.Broken? {
        originalOffset := -1;
      } else {
        ok := TruncateTransferFile();
      }
    }
  }

  function Start(w: World, file: seq<byte>, marked: bool): State {
    State(file, marked, w.wantsResume, -1, 0)
  }

  /** Failed attempts before a complete one. */
  function AfterFailures(w: World, s: State, failures: seq<Attempt>): (r: State)
    requires s.offset >= -1
    ensures r.offset >= -1
    decreases |failures|
  {
    if failures == [] then s else AfterFailures(w, Step(w, s, failures[0]), failures[1..])
  }

  ghost predicate AllPossible(w: World, s: State, failures: seq<Attempt>)
    requires s.offset >= -1
    decreases |failures|
  {
    failures == []
    || (!failures[0].Complete? && Possible(w, Prepare(w, s).1, failures[0])
        && AllPossible(w, Step(w, s, failures[0]), failures[1..]))
  }

  /** A run: any possible failures, then a possible complete transfer. */
  ghost predicate Run(w: World, s: State, failures: seq<Attempt>)
    requires s.offset >= -1
  {
    AllPossible(w, s, failures) && Possible(w, Prepare(w, AfterFailures(w, s, failures)).1, Complete)
  }

  function FinishedFile(w: World, s: State, failures: seq<Attempt>): seq<byte>
    requires s.offset >= -1
  {
    Step(w, AfterFailures(w, s, failures), Complete).file
  }

  // ---------------------------------------------------------------- when it is right

  /** What the starting file must be when resuming was asked for: with the mark, a part of the content;
      without it, empty and markable. (Nothing can go wrong without a mark when there is no content.) */
  ghost predicate Trustworthy(w: World, s: State) {
    s.resume ==>
      if s.marked then s.file <= w.content else w.content == [] || (s.file == [] && w.canMark)
  }

  ghost predicate Good(w: World, s: State) {
    && s.offset >= -1 && Trustworthy(w, s)
    && (s.resume ==> (s.offset == -1 || s.offset == |s.file|) && (s.count > 0 ==> s.marked))
  }

  lemma TruncateAppended(file: seq<byte>, data: seq<byte>)
    ensures Truncate(WriteAt(file, |file|, data), |file|) == file
    ensures WriteAt(file, |file|, data) == file + data
    ensures WriteAt([], 0, data) == data
  {
    assert file[..|file|] == file;
  }

  lemma StepKeepsGood(w: World, s: State, a: Attempt)
    requires Good(w, s) && !a.Complete? && Possible(w, Prepare(w, s).1, a)
    ensures Good(w, Step(w, s, a))
  {
    var (s1, from, pos) := Prepare(w, s);
    TruncateAppended(s1.file, Received(w, from, a));
    if s1.resume && a.Broken? {
      assert s.file + a.data <= w.content;
    }
  }

  lemma CompleteIsRight(w: World, s: State)
    requires Good(w, s) && Possible(w, Prepare(w, s).1, Complete)
    ensures Step(w, s, Complete).file == w.content
  {
    var (s1, from, pos) := Prepare(w, s);
    TruncateAppended(s1.file, w.content[from..]);
    if w.content == [] {
      assert s1.file == [];
    } else if !s1.resume {
      assert from == pos == 0 && w.content[0..] == w.content;
      assert s1.file <= w.content;
    }
  }

  lemma {:induction false} RunIsRight(w: World, s: State, failures: seq<Attempt>)
    requires Good(w, s) && Run(w, s, failures)
    ensures FinishedFile(w, s, failures) == w.content
    decreases |failures|
  {
    if failures == [] {
      CompleteIsRight(w, s);
    } else {
      StepKeepsGood(w, s, failures[0]);
      RunIsRight(w, Step(w, s, failures[0]), failures[1..]);
    }
  }

  // ---------------------------------------------------------------- what is resumed

  /** A transfer begins behind what is kept of the file only if resuming is on, the file carries the mark and
      nothing was resumed before. Without the mark the file is emptied, and a file not to be resumed is
      opened empty. */
  lemma ResumedExactlyWhen(w: World, s: State)
    requires s.offset >= -1
    ensures var (s1, from, pos) := Prepare(w, s);
            var kept := if s.offset == -1 then |s.file| else s.offset;
            && (from > 0 <==> s.resume && s.marked && s.count == 0 && kept > 0)
            && (from > 0 ==> from == kept == pos == s1.offset && s1.count == 1 && s1.file == s.file)
            && s1.file == (if !s.resume || (s.count == 0 && kept > 0 && !s.marked) then [] else s.file)
            && s1.resume == (s.resume && s.count == 0 && (kept > 0 ==> s.marked))
            && s1.marked == (s.marked || w.canMark)
  {
  }

  /** The mark is on the file while it is incomplete and goes when it is complete. */
  lemma MarkedWhileIncomplete(w: World, s: State, a: Attempt)
    requires s.offset >= -1
    ensures Step(w, s, a).marked <==> !a.Complete? && (s.marked || w.canMark)
  {
  }

  /** How many of the attempts of a run begin behind what is kept of the file. */
  function Resumptions(w: World, s: State, attempts: seq<Attempt>): nat
    requires s.offset >= -1
    decreases |attempts|
  {
    if attempts == [] then 0
    else (if Prepare(w, s).1 > 0 then 1 else 0) + Resumptions(w, Step(w, s, attempts[0]), attempts[1..])
  }

  /** However often a target is tried again, it is resumed at most once. */
  lemma {:induction false} ResumedAtMostOnce(w: World, s: State, attempts: seq<Attempt>)
    requires s.offset >= -1
    ensures Resumptions(w, s, attempts) <= (if s.count == 0 then 1 else 0)
    decreases |attempts|
  {
    if attempts != [] {
      ResumedAtMostOnce(w, Step(w, s, attempts[0]), attempts[1..]);
    }
  }

  // ---------------------------------------------------------------- and when it is not

  /** A file without the mark is emptied but written to from behind its old end: it begins with zeros. */
  lemma UnmarkedFile(w: World, s: State)
    requires s.resume && s.offset == -1 && s.count == 0 && s.file != [] && !s.marked && w.content != []
    ensures Run(w, s, []) && FinishedFile(w, s, []) == Zeros(|s.file|) + w.content
  {
    assert Truncate([], |s.file|) == Zeros(|s.file|);
    assert w.content[0..] == w.content;
  }

  /** Where nothing can be marked, an empty file and one lost connection are enough: the byte that was kept is
      not recognised, and the content is written behind it. */
  lemma LostConnection(w: World, s: State)
    requires s.resume && w.wantsResume && s.offset == -1 && s.count == 0 && s.file == []
    requires !s.marked && !w.canMark && w.content != []
    ensures var failures := [Broken(w.content[..1])];
            Run(w, s, failures) && FinishedFile(w, s, failures) == [0] + w.content
  {
    var part := w.content[..1];
    var failures := [Broken(part)];
    assert w.content[0..] == w.content;
    var s1 := Step(w, s, Broken(part));
    assert failures[1..] == [];
    assert AfterFailures(w, s1, []) == s1;
    TruncateAppended([], part);
    assert s1.file == part && !s1.marked && s1.resume && s1.count == 0;
    assert Truncate([], 1) == [0];
  }

  /** A run that ends in a wrong file, for every start that cannot be trusted: finish at once; or lose
      the connection once and finish then. */
  lemma WrongRun(w: World, s: State) returns (failures: seq<Attempt>)
    requires s.resume && w.wantsResume && s.offset == -1 && s.count == 0 && !Trustworthy(w, s)
    ensures Run(w, s, failures) && FinishedFile(w, s, failures) != w.content
  {
    if s.file != [] && !s.marked {
      failures := [];
      UnmarkedFile(w, s);
    } else if s.file != [] && |s.file| <= |w.content| {
      // Marked, but not a part of the content: the rest is appended to it.
      failures := [];
      TruncateAppended(s.file, w.content[|s.file|..]);
      assert FinishedFile(w, s, []) == s.file + w.content[|s.file|..];
      assert (s.file + w.content[|s.file|..])[..|s.file|] == s.file;
    } else if s.file != [] {
      // Longer than the content: it is kept, and then only overwritten from the beginning.
      failures := [Broken([])];
      var s1 := Step(w, s, Broken([]));
      assert failures[1..] == [];
      assert AfterFailures(w, s1, []) == s1;
      assert s1.file == s.file && s1.count == 1 && s1.resume;
      assert |WriteAt(s.file, 0, w.content)| == |s.file|;
    } else {
      failures := [Broken(w.content[..1])];
      LostConnection(w, s);
    }
  }

  /** The finished file equals the content in every run exactly when resuming was not asked for or the
      starting file can be trusted. */
  lemma RightExactlyWhenTrustworthy(w: World, file: seq<byte>, marked: bool)
    ensures (forall failures :: Run(w, Start(w, file, marked), failures) ==>
               FinishedFile(w, Start(w, file, marked), failures) == w.content)
            <==> Trustworthy(w, Start(w, file, marked))
  {
    var s := Start(w, file, marked);
    if Trustworthy(w, s) {
      forall failures | Run(w, s, failures)
        ensures FinishedFile(w, s, failures) == w.content
      {
        RunIsRight(w, s, failures);
      }
    } else {
      var failures := WrongRun(w, s);
    }
  }
}
