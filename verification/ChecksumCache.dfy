/** The checksum cache of librepo/checksum.c in extended attributes, against recomputation. */
module ChecksumCache {
  import opened Wrappers

  datatype ChecksumType = Md5 | Sha1 | Sha224 | Sha256 | Sha384 | Sha512

  /** Attribute names: user.librepo.checksum.mtime, user.librepo.checksum.<type>, and all others. */
  datatype Key = Mtime | Sum(t: ChecksumType) | Foreign(name: string)

  datatype FileState = FileState(content: seq<byte>, mtime: int, attrs: map<Key, string>)

  /** The hash functions, the writing of a time stamp in decimal, and whether the file system supports
      extended attributes. */
  datatype World = World(digest: (ChecksumType, seq<byte>) -> string, decimal: int -> string, supported: bool)

  function IsCacheKey(k: Key): bool {
    !k.Foreign?
  }

  function Cleared(w: World, s: FileState): FileState {
    if w.supported then s.(attrs := map k | k in s.attrs && !IsCacheKey(k) :: s.attrs[k]) else s
  }

  /** fremovexattr */
  function Without(attrs: map<Key, string>, name: Key): map<Key, string> {
    map k | k in attrs && k != name :: attrs[k]
  }

  predicate Stamped(w: World, attrs: map<Key, string>, time: int) {
    Mtime in attrs && attrs[Mtime] == w.decimal(time)
  }

  /** The cached checksum of a type, if the stamp says that it is still good. */
  function Cached(w: World, s: FileState, t: ChecksumType): Option<string> {
    if w.supported && Stamped(w, s.attrs, s.mtime) && Sum(t) in s.attrs then Some(s.attrs[Sum(t)]) else None
  }

  class File {
    const world: World
    var content: seq<byte>
    var mtime: int
    var attrs: map<Key, string>

    constructor (world: World, content: seq<byte>, mtime: int, attrs: map<Key, string>)
      ensures this.world == world && View() == FileState(content, mtime, attrs)
    {
      this.world, this.content, this.mtime, this.attrs := world, content, mtime, attrs;
    }

    ghost function View(): FileState
      reads this
    {
      FileState(content, mtime, attrs)
    }

    /** lr_checksum_clear_cache */
    method ClearCache()
      modifies this`attrs
      ensures View() == Cleared(world, old(View()))
    {
      if !world.supported {
        return;
      }
      attrs := Without(attrs, Mtime);
      var todo := attrs.Keys;
      while todo != {}
        invariant forall k :: k in attrs ==> k in old(attrs) && attrs[k] == old(attrs)[k]
        invariant forall k :: k in old(attrs) && !IsCacheKey(k) ==> k in attrs
        invariant forall k :: k in attrs && IsCacheKey(k) ==> k in todo
        decreases todo
      {
        var name :| name in todo;
        todo := todo - {name};
        if IsCacheKey(name) {
          attrs := Without(attrs, name);
        }
      }
      assert attrs.Keys == Cleared(world, old(View())).attrs.Keys;
    }

    /** lr_checksum_fd_compare. Reading the file and fsync may fail. */
    method Compare(t: ChecksumType, expected: string, caching: bool, readOk: bool, fsyncOk: bool)
      returns (ok: bool, matches: bool, calculated: string)
      modifies this`attrs
      ensures ok ==> (View(), calculated) == Compared(world, old(View()), t, expected, caching)
      ensures ok ==> (matches <==> expected == calculated)
      ensures !ok ==> View() == Refreshed(world, old(View()), caching)
      ensures readOk && fsyncOk ==> ok
    {
      var useCache := caching;
      if useCache {
        if world.supported && Mtime in attrs {
          if attrs[Mtime] == world.decimal(mtime) {
            if Sum(t) in attrs {
              var buf := attrs[Sum(t)];
              return true, expected == buf, buf;
            }
          } else {
            ClearCache();
          }
        } else if !world.supported {
          useCache := false;
        }
      }
      if !readOk {
        return false, false, "";
      }
      calculated := world.digest(t, content);
      matches := expected == calculated;
      ok := fsyncOk;
      if ok && useCache && matches {
        attrs := attrs[Mtime := world.decimal(mtime)][Sum(t) := calculated];
      }
    }

    /** The loop of check_finished_transfer_checksum: the first usable expected checksum that matches
        decides. Unusable entries have no value or an unknown type. */
    method CheckFinishedTransfer(checksums: seq<Option<(ChecksumType, string)>>, readOk: bool, fsyncOk: bool)
      returns (ok: bool, matches: bool)
      modifies this`attrs
      ensures content == old(content) && mtime == old(mtime)
      ensures Sound(world, old(View())) ==>
                Sound(world, View()) && (ok ==> (matches <==> Accepted(world, content, checksums)))
      ensures readOk && fsyncOk ==> ok
    {
      ghost var sound := Sound(world, View());
      matches, ok := true, true;
      var k := 0;
      while k < |checksums|
        invariant 0 <= k <= |checksums| && ok
        invariant content == old(content) && mtime == old(mtime)
        invariant sound ==> Sound(world, View()) && forall j :: 0 <= j < k ==> !Fits(world, content, checksums[j])
        invariant matches <==> forall j :: 0 <= j < k ==> checksums[j].None?
      {
        if checksums[k].Some? {
          var calculated;
          ok, matches, calculated := Compare(checksums[k].value.0, checksums[k].value.1, true, readOk, fsyncOk);
          if !ok {
            return;
          }
          if matches {
            assert sound ==> Fits(world, content, checksums[k]);
            return;
          }
        }
        k := k + 1;
      }
    }

    /** The end of a finished transfer: whatever its attributes were, the cache is cleared first. */
    method CheckNewFile(checksums: seq<Option<(ChecksumType, string)>>, readOk: bool, fsyncOk: bool)
      returns (ok: bool, matches: bool)
      modifies this`attrs
      ensures Sound(world, View()) && content == old(content) && mtime == old(mtime)
      ensures ok ==> (matches <==> Accepted(world, content, checksums))
      ensures readOk && fsyncOk ==> ok
    {
      ClearedIsSound(world, View());
      ClearCache();
      ok, matches := CheckFinishedTransfer(checksums, readOk, fsyncOk);
    }
  }

  /** Clearing removes the stamp and the checksums, and leaves attributes of others alone. */
  lemma ClearedExactly(w: World, s: FileState)
    ensures var r := Cleared(w, s);
            && r.content == s.content && r.mtime == s.mtime && (!w.supported ==> r == s)
            && forall k :: w.supported ==>
                 (k in r.attrs <==> k in s.attrs && k.Foreign?) && (k in r.attrs ==> r.attrs[k] == s.attrs[k])
  {
  }

  /** After clearing there is nothing a comparison could wrongly believe, whatever was cached before. */
  lemma ClearedIsSound(w: World, s: FileState)
    ensures Sound(w, Cleared(w, s))
  {
  }

  predicate Fits(w: World, content: seq<byte>, c: Option<(ChecksumType, string)>) {
    c.Some? && w.digest(c.value.0, content) == c.value.1
  }

  /** At least one usable checksum fits the content, or none is usable. */
  ghost predicate Accepted(w: World, content: seq<byte>, checksums: seq<Option<(ChecksumType, string)>>) {
    (exists k :: 0 <= k < |checksums| && Fits(w, content, checksums[k]))
    || forall k :: 0 <= k < |checksums| ==> checksums[k].None?
  }

  /** No cached checksum is wrong that a comparison could come to believe: a stamped one must be right for
      the content, and one without a stamp for every content. */
  ghost predicate Sound(w: World, s: FileState) {
    w.supported ==>
      && (Stamped(w, s.attrs, s.mtime) ==> forall t :: Sum(t) in s.attrs ==> s.attrs[Sum(t)] == w.digest(t, s.content))
      && (Mtime !in s.attrs ==>
            forall t, content :: Sum(t) in s.attrs ==> s.attrs[Sum(t)] == w.digest(t, content))
  }

  // ---------------------------------------------------------------- sequences of operations

  /** A writer changes the content and the time, and may clear the cache afterwards as lr_download does
      after every transfer. */
  datatype Op =
    | Write(content: seq<byte>, mtime: int)
    | WriteAndClear(content: seq<byte>, mtime: int)
    | Clear
    | CompareOp(t: ChecksumType, expected: string, caching: bool)

  /** A write must not give the file the time the cache is stamped with, unless what is cached happens
      to be right for the new content as well. */
  predicate Allowed(w: World, s: FileState, op: Op) {
    op.Write? && w.supported && Stamped(w, s.attrs, op.mtime) ==>
      forall t :: Sum(t) in s.attrs ==> s.attrs[Sum(t)] == w.digest(t, op.content)
  }

  /** Compare as a function: the state after it, and the checksum it reports. */
  function Compared(w: World, s: FileState, t: ChecksumType, expected: string, caching: bool): (FileState, string) {
    if !caching || !w.supported then (s, w.digest(t, s.content))
    else if Cached(w, s, t).Some? then (s, Cached(w, s, t).value)
    else
      var s1 := Refreshed(w, s, caching);
      var calculated := w.digest(t, s.content);
      (if expected == calculated
       then s1.(attrs := s1.attrs[Mtime := w.decimal(s.mtime)][Sum(t) := calculated]) else s1, calculated)
  }

  /** A cache with another stamp than the file's time is cleared. */
  function Refreshed(w: World, s: FileState, caching: bool): FileState {
    if caching && Mtime in s.attrs && !Stamped(w, s.attrs, s.mtime) then Cleared(w, s) else s
  }

  function Step(w: World, s: FileState, op: Op): FileState {
    match op
    case Write(content, mtime) => s.(content := content, mtime := mtime)
    case WriteAndClear(content, mtime) => Cleared(w, s.(content := content, mtime := mtime))
    case Clear => Cleared(w, s)
    case CompareOp(t, expected, caching) => Compared(w, s, t, expected, caching).0
  }

  function Steps(w: World, s: FileState, ops: seq<Op>): FileState
    decreases |ops|
  {
    if ops == [] then s else Steps(w, Step(w, s, ops[0]), ops[1..])
  }

  predicate AllAllowed(w: World, s: FileState, ops: seq<Op>)
    decreases |ops|
  {
    ops == [] || (Allowed(w, s, ops[0]) && AllAllowed(w, Step(w, s, ops[0]), ops[1..]))
  }

  lemma StepIsSound(w: World, s: FileState, op: Op)
    requires Sound(w, s) && Allowed(w, s, op)
    ensures Sound(w, Step(w, s, op))
  {
  }

  ghost predicate AnswersRight(w: World, s: FileState) {
    forall t, expected :: Compared(w, s, t, expected, true).1 == w.digest(t, s.content)
  }

  lemma SoundAnswers(w: World, s: FileState)
    requires Sound(w, s)
    ensures AnswersRight(w, s)
  {
  }

  /** Exactly the allowed operations leave a file for which every cached comparison is right. */
  lemma RightExactlyWhenAllowed(w: World, s: FileState, op: Op)
    requires Sound(w, s)
    ensures AnswersRight(w, Step(w, s, op)) <==> Allowed(w, s, op)
  {
    var r := Step(w, s, op);
    if Allowed(w, s, op) {
      StepIsSound(w, s, op);
    } else {
      var t :| Sum(t) in s.attrs && s.attrs[Sum(t)] != w.digest(t, op.content);
      assert Cached(w, r, t) == Some(s.attrs[Sum(t)]);
      assert Compared(w, r, t, "", true).1 != w.digest(t, r.content);
    }
  }

  lemma {:induction false} StepsAreSound(w: World, s: FileState, ops: seq<Op>)
    requires Sound(w, s) && AllAllowed(w, s, ops)
    ensures Sound(w, Steps(w, s, ops))
    decreases |ops|
  {
    if ops != [] {
      StepIsSound(w, s, ops[0]);
      StepsAreSound(w, Step(w, s, ops[0]), ops[1..]);
    }
  }

  ghost predicate AlwaysRight(w: World, s: FileState) {
    forall ops :: AllAllowed(w, s, ops) ==> AnswersRight(w, Steps(w, s, ops))
  }

  /** A checksum of type t without a stamp that some content does not have: write that content, let a
      comparison of another type stamp the file, and the checksum is believed. */
  lemma UnstampedIsBelieved(w: World, s: FileState, t: ChecksumType, content: seq<byte>) returns (ops: seq<Op>)
    requires w.supported && Mtime !in s.attrs && Sum(t) in s.attrs && s.attrs[Sum(t)] != w.digest(t, content)
    ensures AllAllowed(w, s, ops) && Steps(w, s, ops).content == content
    ensures Compared(w, Steps(w, s, ops), t, "", true).1 == s.attrs[Sum(t)]
  {
    var other := if t == Md5 then Sha1 else Md5;
    var write, compare := Write(content, s.mtime), CompareOp(other, w.digest(other, content), true);
    ops := [write, compare];
    var s1 := Step(w, s, write);
    assert ops[1..] == [compare] && [compare][1..] == [];
    assert AllAllowed(w, Step(w, s1, compare), []);
    assert AllAllowed(w, s1, [compare]);
    assert Steps(w, s1, [compare]) == Steps(w, Step(w, s1, compare), []) == Step(w, s1, compare);
  }

  /** Over all sequences of allowed operations, every cached comparison is right if and only if the file was
      sound to begin with. */
  lemma AlwaysRightExactlyWhenSound(w: World, s: FileState)
    ensures AlwaysRight(w, s) <==> Sound(w, s)
  {
    if Sound(w, s) {
      forall ops | AllAllowed(w, s, ops)
        ensures AnswersRight(w, Steps(w, s, ops))
      {
        StepsAreSound(w, s, ops);
        SoundAnswers(w, Steps(w, s, ops));
      }
    } else if Stamped(w, s.attrs, s.mtime) {
      var t :| Sum(t) in s.attrs && s.attrs[Sum(t)] != w.digest(t, s.content);
      assert AllAllowed(w, s, []) && Steps(w, s, []) == s;
      assert Compared(w, s, t, "", true).1 != w.digest(t, s.content);
    } else {
      var t, content :| Sum(t) in s.attrs && s.attrs[Sum(t)] != w.digest(t, content);
      var ops := UnstampedIsBelieved(w, s, t, content);
      assert Compared(w, Steps(w, s, ops), t, "", true).1 != w.digest(t, content);
    }
  }

  /** A file without cached checksums is a sound start: after any allowed operations a cached comparison
      reports what an uncached one does. */
  lemma CachedAgreesWithUncached(w: World, s: FileState, ops: seq<Op>, t: ChecksumType, expected: string)
    requires (forall k :: k in s.attrs ==> !IsCacheKey(k)) && AllAllowed(w, s, ops)
    ensures var r := Steps(w, s, ops);
            && Compared(w, r, t, expected, true).1 == Compared(w, r, t, expected, false).1 == w.digest(t, r.content)
            && Compared(w, r, t, expected, true).0.content == r.content
  {
    assert Sound(w, s) by {
      forall t | Sum(t) in s.attrs
        ensures false
      {
        assert IsCacheKey(Sum(t));
      }
    }
    StepsAreSound(w, s, ops);
    SoundAnswers(w, Steps(w, s, ops));
  }

  /** Removing the stamp alone does not clear the cache: the old MD5 sum outlives the content it belongs to
      and is believed again once a comparison of another type has stamped the file. */
  lemma StampAloneIsNotEnough(w: World, s: FileState, expected: string, content: seq<byte>) returns (ops: seq<Op>)
    requires w.supported && expected == w.digest(Md5, s.content) != w.digest(Md5, content)
    requires forall k :: k in s.attrs ==> !IsCacheKey(k)
    ensures var s1 := Step(w, s, CompareOp(Md5, expected, true));
            var s2 := s1.(attrs := Without(s1.attrs, Mtime));
            && AllAllowed(w, s2, ops) && Steps(w, s2, ops).content == content
            && Compared(w, Steps(w, s2, ops), Md5, "", true).1 == expected != w.digest(Md5, content)
  {
    var s1 := Step(w, s, CompareOp(Md5, expected, true));
    assert Mtime !in s.attrs by {
      assert IsCacheKey(Mtime);
    }
    ops := UnstampedIsBelieved(w, s1.(attrs := Without(s1.attrs, Mtime)), Md5, content);
  }

  /** A run that is not allowed: a write that brings back the time of an earlier comparison makes the
      cache report the checksum of the old content. */
  lemma TimeMustNotGoBack(w: World, t: ChecksumType, before: seq<byte>, after: seq<byte>)
    requires w.supported && w.digest(t, before) != w.digest(t, after)
    ensures var s := FileState(before, 1, map[]);
            var ops := [CompareOp(t, w.digest(t, before), true), Write(after, 2), Write(after, 1)];
            var r := Steps(w, s, ops);
            r.content == after && Compared(w, r, t, "", true).1 == w.digest(t, before) != w.digest(t, r.content)
  {
    var s := FileState(before, 1, map[]);
    var ops := [CompareOp(t, w.digest(t, before), true), Write(after, 2), Write(after, 1)];
    var s1 := Step(w, s, ops[0]);
    assert ops[1..] == [Write(after, 2), Write(after, 1)];
    assert ops[1..][1..] == [Write(after, 1)];
    assert ops[1..][1..][1..] == [];
    var r := Step(w, Step(w, s1, Write(after, 2)), Write(after, 1));
    assert Steps(w, r, []) == r;
    assert Steps(w, Step(w, s1, Write(after, 2)), [Write(after, 1)]) == r;
    assert Steps(w, s1, ops[1..]) == r;
  }
}
