/** lr_writecb: which bytes of the stream reach the file, however curl cuts the stream into chunks. */
module WriteCallback {
  import opened Wrappers

  /** The fields of the target the callback uses. */
  datatype Settings = Settings(byterangestart: int, byterangeend: int, originalOffset: int) {
    predicate WholeStream() {
      byterangestart <= 0 && byterangeend <= 0
    }

    /** File position of the first byte of the stream: curl was asked to resume there. */
    function Base(): int {
      if byterangestart > 0 then byterangestart
      else if originalOffset > 0 then originalOffset
      else 0
    }
  }

  datatype Writer = Writer(received: nat, rangeWritten: bool, written: seq<byte>)

  const FRESH := Writer(0, false, [])

  /** What curl delivers at once, and how much of it fwrite would take. */
  datatype Chunk = Chunk(bytes: seq<byte>, room: nat)

  class Target {
    const settings: Settings
    var writecbReceived: nat
    var rangeWritten: bool
    var file: seq<byte>

    constructor (settings: Settings)
      ensures this.settings == settings && View() == FRESH
    {
      this.settings := settings;
      writecbReceived, rangeWritten, file := 0, false, [];
    }

    ghost function View(): Writer
      reads this
    {
      Writer(writecbReceived, rangeWritten, file)
    }

    /** fwrite, which may take less than it is given. */
    method Fwrite(text: seq<byte>) returns (n: nat)
      modifies this`file
      ensures n <= |text| && file == old(file) + text[..n]
    {
      n :| 0 <= n <= |text|;
      file := file + text[..n];
    }

    /** Called by curl with a non-empty chunk; any answer other than the chunk's size makes curl stop
        with CURLE_WRITE_ERROR. `room` is what fwrite took. */
    method WriteCb(chunk: seq<byte>) returns (answer: nat, ghost room: nat)
      requires chunk != []
      modifies this
      ensures (View(), answer) == Accept(settings, old(View()), Chunk(chunk, room))
    {
      var nmemb := |chunk|;
      var all := nmemb;
      room := 0;
      var rangeStart, rangeEnd := settings.byterangestart, settings.byterangeend;
      if rangeStart <= 0 && rangeEnd <= 0 {
        writecbReceived := writecbReceived + all;
        answer := Fwrite(chunk);
        return answer, answer;
      }
      var curStart: int := writecbReceived;
      var curEnd := curStart + all;
      writecbReceived := writecbReceived + all;
      if settings.byterangestart > 0 {
        curStart := curStart + settings.byterangestart;
        curEnd := curEnd + settings.byterangestart;
      } else if settings.originalOffset > 0 {
        curStart := curStart + settings.originalOffset;
        curEnd := curEnd + settings.originalOffset;
      }
      // The stream starts at or behind byterangestart, so the two branches of the source for a range
      // that has not begun yet are never taken.
      if curStart < rangeStart {
        assert false;
      }
      if rangeEnd != 0 && curStart > rangeEnd {
        rangeWritten := true;
        return 0, room;
      }
      if rangeEnd != 0 {
        if curEnd > rangeEnd {
          var offset := curEnd - rangeEnd;
          assert offset > 0;
          nmemb := nmemb - (offset - 1);
        }
      }
      assert 0 < nmemb <= |chunk|;
      assert chunk[..|chunk|] == chunk;
      var written := Fwrite(chunk[..nmemb]);
      room := written;
      if written != nmemb {
        return 0, room;
      }
      return |chunk|, room;
    }
  }

  /** The bytes of a stream, starting at stream position `at`, that belong to the range. */
  function Slice(st: Settings, at: nat, bytes: seq<byte>): seq<byte>
    decreases |bytes|
  {
    if bytes == [] then []
    else (if InRange(st, at) then [bytes[0]] else []) + Slice(st, at + 1, bytes[1..])
  }

  /** Whether the byte at a stream position has a file position inside the requested range. */
  predicate InRange(st: Settings, at: nat) {
    st.WholeStream() || (st.byterangestart <= st.Base() + at && (st.byterangeend == 0 || st.Base() + at <= st.byterangeend))
  }

  /** The range is over before this position of the stream. */
  predicate PastEnd(st: Settings, at: nat) {
    !st.WholeStream() && st.byterangeend != 0 && st.Base() + at > st.byterangeend
  }

  /** What one call does: the new state, and its answer. */
  function Accept(st: Settings, w: Writer, c: Chunk): (Writer, nat) {
    var next := w.(received := w.received + |c.bytes|);
    if PastEnd(st, w.received) then (next.(rangeWritten := true), 0)
    else
      var part := Taken(st, w.received, c.bytes);
      var n := Min(c.room, |part|);
      (next.(written := w.written + part[..n]),
       if n == |part| then |c.bytes| else if st.WholeStream() then n else 0)
  }

  /** The prefix of the chunk that lies in the range. */
  function Taken(st: Settings, at: nat, chunk: seq<byte>): seq<byte> {
    if st.WholeStream() || st.byterangeend == 0 || st.Base() + at + |chunk| <= st.byterangeend then chunk
    else chunk[..Max(0, Min(|chunk|, st.byterangeend - st.Base() - at + 1))]
  }

  /** curl delivers chunks until one is refused. */
  function Deliver(st: Settings, w: Writer, chunks: seq<Chunk>): Writer
    decreases |chunks|
  {
    if chunks == [] then w
    else
      var (next, answer) := Accept(st, w, chunks[0]);
      if answer == |chunks[0].bytes| then Deliver(st, next, chunks[1..]) else next
  }

  /** Some chunk is refused, which ends the transfer with CURLE_WRITE_ERROR. */
  predicate Refused(st: Settings, w: Writer, chunks: seq<Chunk>)
    decreases |chunks|
  {
    chunks != []
    && var (next, answer) := Accept(st, w, chunks[0]);
       answer != |chunks[0].bytes| || Refused(st, next, chunks[1..])
  }

  /** fwrite takes less than the part of the chunk that lies in the range. */
  predicate Short(st: Settings, at: nat, c: Chunk) {
    !PastEnd(st, at) && c.room < |Taken(st, at, c.bytes)|
  }

  /** No chunk that curl delivers is written short. */
  predicate NothingShort(st: Settings, w: Writer, chunks: seq<Chunk>)
    decreases |chunks|
  {
    chunks == []
    || (!Short(st, w.received, chunks[0])
        && var (next, answer) := Accept(st, w, chunks[0]);
           answer == |chunks[0].bytes| ==> NothingShort(st, next, chunks[1..]))
  }

  /** All that was to be delivered. */
  function Bytes(chunks: seq<Chunk>): seq<byte> {
    if chunks == [] then [] else chunks[0].bytes + Bytes(chunks[1..])
  }

  // ---------------------------------------------------------------- slices

  lemma {:induction false} SliceConcat(st: Settings, at: nat, a: seq<byte>, b: seq<byte>)
    ensures Slice(st, at, a + b) == Slice(st, at, a) + Slice(st, at + |a|, b)
    decreases |a|
  {
    if a == [] {
      assert a + b == b;
    } else {
      assert (a + b)[1..] == a[1..] + b;
      SliceConcat(st, at + 1, a[1..], b);
    }
  }

  lemma {:induction false} SliceAll(st: Settings, at: nat, bytes: seq<byte>)
    requires forall k :: at <= k < at + |bytes| ==> InRange(st, k)
    ensures Slice(st, at, bytes) == bytes
    decreases |bytes|
  {
    if bytes != [] {
      SliceAll(st, at + 1, bytes[1..]);
    }
  }

  lemma {:induction false} SliceNothing(st: Settings, at: nat, bytes: seq<byte>)
    requires forall k :: at <= k < at + |bytes| ==> !InRange(st, k)
    ensures Slice(st, at, bytes) == []
    decreases |bytes|
  {
    if bytes != [] {
      SliceNothing(st, at + 1, bytes[1..]);
    }
  }

  /** One chunk contributes exactly its part of the range. */
  lemma TakenIsSlice(st: Settings, at: nat, chunk: seq<byte>)
    ensures Taken(st, at, chunk) == Slice(st, at, chunk)
  {
    var n := |Taken(st, at, chunk)|;
    assert chunk == chunk[..n] + chunk[n..];
    SliceConcat(st, at, chunk[..n], chunk[n..]);
    SliceAll(st, at, chunk[..n]);
    SliceNothing(st, at + n, chunk[n..]);
    assert Taken(st, at, chunk) == chunk[..n];
  }

  // ---------------------------------------------------------------- main theorems

  lemma NothingPastEnd(st: Settings, at: nat, bytes: seq<byte>)
    requires PastEnd(st, at)
    ensures Slice(st, at, bytes) == []
  {
    SliceNothing(st, at, bytes);
  }

  /** One call writes a prefix of its chunk's part of the range: all of it, or short. Only a short chunk and
      one past the end are refused, and only the latter sets the flag. */
  lemma AcceptIsSlice(st: Settings, w: Writer, c: Chunk)
    ensures var (next, answer) := Accept(st, w, c);
            var all := w.written + Slice(st, w.received, c.bytes);
            && next.received == w.received + |c.bytes| && next.written <= all
            && (!Short(st, w.received, c) ==> next.written == all)
            && (Short(st, w.received, c) ==> answer != |c.bytes|)
            && (answer != |c.bytes| ==> Short(st, w.received, c) || PastEnd(st, w.received))
            && next.rangeWritten == (w.rangeWritten || PastEnd(st, w.received))
  {
    if PastEnd(st, w.received) {
      NothingPastEnd(st, w.received, c.bytes);
      assert w.written + [] == w.written;
    } else {
      TakenIsSlice(st, w.received, c.bytes);
      var part := Taken(st, w.received, c.bytes);
      assert part[..|part|] == part;
      assert w.written + part[..Min(c.room, |part|)] <= w.written + part;
    }
  }

  /** Whatever fwrite takes, the file gets a prefix of the range, and all of it if nothing is short. */
  lemma {:induction false} DeliverIsSlice(st: Settings, w: Writer, chunks: seq<Chunk>)
    ensures Deliver(st, w, chunks).written <= w.written + Slice(st, w.received, Bytes(chunks))
    ensures NothingShort(st, w, chunks) ==>
              Deliver(st, w, chunks).written == w.written + Slice(st, w.received, Bytes(chunks))
    decreases |chunks|
  {
    if chunks == [] {
      assert w.written + [] == w.written;
    } else {
      var c, rest := chunks[0], Bytes(chunks[1..]);
      var (next, answer) := Accept(st, w, c);
      AcceptIsSlice(st, w, c);
      SliceConcat(st, w.received, c.bytes, rest);
      ConcatIsAssociative(w.written, Slice(st, w.received, c.bytes), Slice(st, next.received, rest));
      if answer == |c.bytes| {
        DeliverIsSlice(st, next, chunks[1..]);
      } else if PastEnd(st, w.received) {
        NothingPastEnd(st, next.received, rest);
        assert next.written + [] == next.written;
      }
    }
  }

  /** However the stream is chunked, if nothing is written short the file gets the bytes whose positions lie
      between byterangestart and byterangeend, both included, or from byterangestart on when byterangeend
      is 0. */
  lemma WritesExactlyTheRange(st: Settings, chunks: seq<Chunk>)
    requires NothingShort(st, FRESH, chunks)
    ensures Deliver(st, FRESH, chunks).written == Slice(st, 0, Bytes(chunks))
  {
    DeliverIsSlice(st, FRESH, chunks);
  }

  /** Whatever fwrite takes, nothing but a prefix of the range reaches the file. */
  lemma WritesOnlyTheRange(st: Settings, chunks: seq<Chunk>)
    ensures Deliver(st, FRESH, chunks).written <= Slice(st, 0, Bytes(chunks))
  {
    DeliverIsSlice(st, FRESH, chunks);
  }

  /** The bytes of the range, cut out of a stream that starts at file position `from`. */
  lemma {:induction false} SliceIsCut(st: Settings, at: nat, bytes: seq<byte>)
    requires st.byterangestart > 0 || st.byterangeend > 0
    ensures var from := if st.byterangestart > 0 then st.byterangestart
                        else if st.originalOffset > 0 then st.originalOffset else 0;
            Slice(st, at, bytes) == if st.byterangeend == 0 then bytes
                                    else bytes[..Max(0, Min(|bytes|, st.byterangeend + 1 - from - at))]
    decreases |bytes|
  {
    if bytes != [] {
      SliceIsCut(st, at + 1, bytes[1..]);
    }
  }

  /** What a mirror with this content sends from where curl was asked to begin ends up in the file from there
      up to and including byterangeend, or to the end of the content when there is none. */
  lemma WritesTheContent(st: Settings, content: seq<byte>, chunks: seq<Chunk>)
    requires NothingShort(st, FRESH, chunks)
    requires var from := if st.byterangestart > 0 then st.byterangestart
                         else if st.originalOffset > 0 then st.originalOffset else 0;
             from <= |content| && Bytes(chunks) == content[from..]
    ensures var from := if st.byterangestart > 0 then st.byterangestart
                        else if st.originalOffset > 0 then st.originalOffset else 0;
            var limited := st.byterangeend > 0 || (st.byterangeend < 0 && st.byterangestart > 0);
            var end := if limited then Max(from, Min(|content|, st.byterangeend + 1)) else |content|;
            Deliver(st, FRESH, chunks).written == content[from..end]
  {
    var bytes := Bytes(chunks);
    WritesExactlyTheRange(st, chunks);
    if st.byterangestart > 0 || st.byterangeend > 0 {
      SliceIsCut(st, 0, bytes);
    } else {
      SliceAll(st, 0, bytes);
    }
  }

  /** What curl is told: the size of the chunk when all that lies in the range was written, which may be
      nothing of it, and otherwise 0, or without a range what fwrite took. */
  lemma AnswersExactly(st: Settings, w: Writer, c: Chunk)
    requires c.bytes != []
    ensures var (next, answer) := Accept(st, w, c);
            var from := if st.byterangestart > 0 then st.byterangestart
                        else if st.originalOffset > 0 then st.originalOffset else 0;
            var at := from + w.received;
            && next.received == w.received + |c.bytes|
            && if st.byterangestart <= 0 && st.byterangeend <= 0 then
                 answer == Min(c.room, |c.bytes|) && next.rangeWritten == w.rangeWritten
               else if st.byterangeend != 0 && at > st.byterangeend then
                 answer == 0 && next.rangeWritten && next.written == w.written
               else
                 var wanted := if st.byterangeend == 0 then |c.bytes| else Min(|c.bytes|, st.byterangeend + 1 - at);
                 && answer == (if c.room >= wanted then |c.bytes| else 0)
                 && next.written == w.written + c.bytes[..Min(c.room, wanted)]
                 && next.rangeWritten == w.rangeWritten
  {
    assert c.bytes[..|c.bytes|] == c.bytes;
  }

  /** The flag is set only past the end of the range, and never once a chunk was short. */
  lemma {:induction false} FlagMeansPastEnd(st: Settings, w: Writer, chunks: seq<Chunk>)
    requires w.rangeWritten ==> PastEnd(st, w.received)
    ensures var r := Deliver(st, w, chunks);
            && (r.rangeWritten ==> PastEnd(st, r.received) && NothingShort(st, w, chunks))
            && w.received <= r.received <= w.received + |Bytes(chunks)|
            && (Refused(st, w, chunks) && NothingShort(st, w, chunks) ==> r.rangeWritten)
    decreases |chunks|
  {
    if chunks != [] {
      var (next, answer) := Accept(st, w, chunks[0]);
      AcceptIsSlice(st, w, chunks[0]);
      if answer == |chunks[0].bytes| {
        FlagMeansPastEnd(st, next, chunks[1..]);
      }
    }
  }

  /** A CURLE_WRITE_ERROR counts as success only with this flag, and then, whatever fwrite took before, the
      file has the whole range: no continuation of the stream would add a byte. */
  lemma AcceptedErrorMeansComplete(st: Settings, chunks: seq<Chunk>, more: seq<byte>)
    requires Deliver(st, FRESH, chunks).rangeWritten
    ensures Deliver(st, FRESH, chunks).written == Slice(st, 0, Bytes(chunks) + more)
  {
    FlagMeansPastEnd(st, FRESH, chunks);
    DeliverIsSlice(st, FRESH, chunks);
    SliceConcat(st, 0, Bytes(chunks), more);
    SliceNothing(st, |Bytes(chunks)|, more);
  }

  /** Of the two causes of CURLE_WRITE_ERROR the flag tells exactly the good one: a full disk never passes
      as success. */
  lemma ErrorIsAcceptedExactlyWhenNothingIsShort(st: Settings, chunks: seq<Chunk>)
    requires Refused(st, FRESH, chunks)
    ensures Deliver(st, FRESH, chunks).rangeWritten <==> NothingShort(st, FRESH, chunks)
  {
    FlagMeansPastEnd(st, FRESH, chunks);
  }

  // ---------------------------------------------------------------- the documented range

  /** The settings that package_downloader.h says are in force: an end not behind the start is ignored. */
  function Documented(st: Settings): Settings {
    if st.byterangeend <= st.byterangestart then st.(byterangeend := 0) else st
  }

  lemma {:induction false} SameRangeSameSlice(a: Settings, b: Settings, at: nat, bytes: seq<byte>)
    requires forall k: nat :: InRange(a, k) == InRange(b, k)
    ensures Slice(a, at, bytes) == Slice(b, at, bytes)
    decreases |bytes|
  {
    if bytes != [] {
      SameRangeSameSlice(a, b, at + 1, bytes[1..]);
    }
  }

  /** The code writes the documented bytes for every way of chunking the stream in which nothing is short. */
  ghost predicate WritesDocumented(st: Settings) {
    forall chunks :: NothingShort(st, FRESH, chunks) ==>
                       Deliver(st, FRESH, chunks).written == Slice(Documented(st), 0, Bytes(chunks))
  }

  /** The code keeps to the documentation exactly when there is no start, or the end is 0 or lies behind the
      start. With an end at or before a start it writes at most one byte where everything is promised. */
  lemma DocumentedExactlyWhen(st: Settings)
    ensures WritesDocumented(st)
            <==> st.byterangestart <= 0 || st.byterangeend == 0 || st.byterangeend > st.byterangestart
  {
    if st.byterangestart > 0 && st.byterangeend != 0 && st.byterangeend <= st.byterangestart {
      var bytes: seq<byte> := [0, 0];
      var chunks := [Chunk(bytes, 2)];
      assert chunks[1..] == [] && Bytes(chunks) == bytes;
      WritesExactlyTheRange(st, chunks);
      assert bytes[1..] == [0] && bytes[1..][1..] == [];
      assert !InRange(st, 1);
      SliceAll(Documented(st), 0, bytes);
    } else {
      forall chunks | NothingShort(st, FRESH, chunks)
        ensures Deliver(st, FRESH, chunks).written == Slice(Documented(st), 0, Bytes(chunks))
      {
        WritesExactlyTheRange(st, chunks);
        SameRangeSameSlice(st, Documented(st), 0, Bytes(chunks));
      }
    }
  }
}
