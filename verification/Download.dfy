/**
 * The resumable download: a retry loop around a streaming loop, against a server
 * that may stall, ignore the range it was asked for, or resume at the wrong
 * offset.
 */
module Download {
  import opened Store
  import opened Decimal

  type Bytes = seq<bv8>

  const ATTEMPTS: nat := 4

  /** Why a connection ended early. */
  datatype Fault = Timeout | UrlError | Drop

  datatype End = Eof | Broken(fault: Fault)

  /**
   * What the server does with one request. `offset` is where in the remote file
   * the body really starts; the headers are what the server says.
   */
  datatype Reply =
    | Refused(code: nat)
    | NoReply(fault: Fault)
    | Answer(partial: bool, contentRange: string, contentLength: string,
             offset: nat, chunks: seq<Bytes>, end: End)

  /** The reply to the n-th request, which asks for the file from `start` on. */
  type Server = (nat, nat) -> Reply

  datatype Outcome =
    | Done
    | HttpFailure(code: nat)
    | TooBig
    | Gone(fault: Fault)     // still failing at the last attempt
    | Cancelled
    | DiskFull

  // --- Headers -------------------------------------------------------------

  predicate IsSpace(c: char) {
    c == ' ' || '\t' <= c <= '\r'
  }

  function SkipSpaces(s: string): (r: string)
    ensures |r| <= |s|
  {
    if s != "" && IsSpace(s[0]) then SkipSpaces(s[1..]) else s
  }

  function DropSpaces(s: string): string {
    if s != "" && IsSpace(s[|s| - 1]) then DropSpaces(s[..|s| - 1]) else s
  }

  /** `_range_start`: the first byte a 206 reply says it carries. */
  function RangeStart(header: string): Option<nat> {
    var s := SkipSpaces(header);
    if !("bytes" <= s) then None
    else
      var t := SkipSpaces(s[5..]);
      var d := LeadingDigits(t);
      if |t| == |s| - 5 || d == "" || |t| == |d| || t[|d|] != '-' then None else Some(Value(d))
  }

  /** The total a Content-Range header gives after its slash, if it gives one. */
  function RangeTotal(header: string): Option<nat> {
    var s := DropSpaces(header);
    var d := TrailingDigits(s);
    if d == "" || |d| == |s| || s[|s| - |d| - 1] != '/' then None else Some(Value(d))
  }

  /** `_expected_size`: the full size the server announced, if any. */
  function ExpectedSize(reply: Reply): Option<nat>
    requires reply.Answer?
  {
    if reply.partial then RangeTotal(reply.contentRange)
    else if reply.contentLength != "" && AllDigits(reply.contentLength)
    then Some(Value(reply.contentLength))
    else None
  }

  /** A Content-Range header as section 14.4 of RFC 9110 writes it. */
  function ContentRange(first: nat, last: nat, total: Option<nat>): string {
    "bytes " + Digits(first) + "-" + Digits(last) + "/" + (if total.Some? then Digits(total.value) else "*")
  }

  lemma StartRead(first: nat, tail: string)
    requires tail != "" && tail[0] == '-'
    ensures RangeStart("bytes " + Digits(first) + tail) == Some(first)
  {
    var t := Digits(first) + tail;
    var h := "bytes " + Digits(first) + tail;
    assert h[..5] == "bytes" && h[5..] == [' '] + t;
    assert ([' '] + t)[1..] == t;
    assert !IsSpace(t[0]) && SkipSpaces(t) == t;
    assert !IsSpace(h[0]) && SkipSpaces(h) == h && SkipSpaces(h[5..]) == t;
    LeadingDigitsOf(Digits(first), tail);
    ValueOfDigits(first);
    assert t[|Digits(first)|] == tail[0];
  }

  lemma TotalRead(front: string, total: nat)
    requires front != "" && front[|front| - 1] == '/'
    ensures RangeTotal(front + Digits(total)) == Some(total)
  {
    TrailingDigitsOf(front, Digits(total));
    ValueOfDigits(total);
    TotalAtEnd(front, Digits(total));
  }

  lemma TotalAtEnd(front: string, d: string)
    requires front != "" && front[|front| - 1] == '/' && d != "" && AllDigits(d)
    requires TrailingDigits(front + d) == d
    ensures RangeTotal(front + d) == Some(Value(d))
  {
    var h := front + d;
    assert h[|h| - 1] == d[|d| - 1] && !IsSpace(h[|h| - 1]);
    assert h[|h| - |d| - 1] == front[|front| - 1];
  }

  lemma NoTotalRead(front: string)
    ensures RangeTotal(front + "*") == None
  {
    var h := front + "*";
    assert h[|h| - 1] == '*' && DropSpaces(h) == h;
  }

  /** A header in the standard's form is read as it was meant. */
  lemma ContentRangeRead(first: nat, last: nat, total: Option<nat>)
    ensures RangeStart(ContentRange(first, last, total)) == Some(first)
    ensures RangeTotal(ContentRange(first, last, total)) == total
  {
    var size := if total.Some? then Digits(total.value) else "*";
    var tail := "-" + Digits(last) + "/" + size;
    var front := "bytes " + Digits(first) + "-" + Digits(last) + "/";
    assert ContentRange(first, last, total) == "bytes " + Digits(first) + tail;
    assert ContentRange(first, last, total) == front + size;
    StartRead(first, tail);
    if total.Some? {
      TotalRead(front, total.value);
    } else {
      NoTotalRead(front);
    }
  }

  /** A Content-Length of digits announces that size, and any other text announces none. */
  lemma ContentLengthRead(reply: Reply, n: nat)
    requires reply.Answer? && !reply.partial
    ensures reply.contentLength == Digits(n) ==> ExpectedSize(reply) == Some(n)
    ensures ExpectedSize(reply).Some? <==>
            var length := reply.contentLength; length != "" && forall i | 0 <= i < |length| :: '0' <= length[i] <= '9'
  {
    ValueOfDigits(n);
  }

  // --- What is assumed of the server ---------------------------------------

  function Body(chunks: seq<Bytes>): Bytes {
    if chunks == [] then [] else Body(chunks[..|chunks| - 1]) + chunks[|chunks| - 1]
  }

  /**
   * The reply is a true one about `remote`, to a request from `start` on: its body
   * is a slice of the file, from the offset its headers give if they give one; a
   * 206 only answers a range; an announced size is the file's; and a body with no
   * announced size ends only at the end of the file.
   */
  predicate Honest(reply: Reply, start: nat, remote: Bytes) {
    reply.Answer? ==>
      && reply.offset <= |remote| && Body(reply.chunks) <= remote[reply.offset..]
      && (if reply.partial
          then start > 0 && (RangeStart(reply.contentRange).Some? ==>
                               RangeStart(reply.contentRange).value == reply.offset)
          else reply.offset == 0)
      && (ExpectedSize(reply).Some? ==> ExpectedSize(reply).value == |remote|)
      && (ExpectedSize(reply).None? && reply.end.Eof? ==>
            reply.offset + |Body(reply.chunks)| == |remote|)
  }

  ghost predicate HonestServer(server: Server, remote: Bytes) {
    forall n, start :: Honest(server(n, start), start, remote)
  }

  /**
   * A reply with standard headers: a 200 that gives the file's size as its Content-Length,
   * or a 206 with a Content-Range as section 14.4 of RFC 9110 writes it. Its body is a
   * true slice of the file, and may end early.
   */
  predicate Standard(reply: Reply, start: nat, remote: Bytes) {
    reply.Answer? ==>
      && reply.offset <= |remote| && Body(reply.chunks) <= remote[reply.offset..]
      && if reply.partial
         then start > 0 && SaysRange(reply.contentRange, reply.offset, |remote|)
         else reply.offset == 0 && reply.contentLength == Digits(|remote|)
  }

  /** The header is the standard's for a slice from `first` on of a file of this size. */
  predicate SaysRange(header: string, first: nat, size: nat) {
    exists last: nat | last < size :: header == ContentRange(first, last, Some(size))
  }

  ghost predicate StandardServer(server: Server, remote: Bytes) {
    forall n, start :: Standard(server(n, start), start, remote)
  }

  /** Such a reply announces the file's size, so one that ends early can be told. */
  lemma StandardAnnounces(reply: Reply, start: nat, remote: Bytes)
    requires reply.Answer? && Standard(reply, start, remote)
    ensures ExpectedSize(reply) == Some(|remote|) && ClaimedStart(reply) == Some(reply.offset)
    ensures Honest(reply, start, remote)
  {
    if reply.partial {
      var last: nat :| last < |remote| && reply.contentRange == ContentRange(reply.offset, last, Some(|remote|));
      ContentRangeRead(reply.offset, last, Some(|remote|));
    } else {
      ContentLengthRead(reply, |remote|);
    }
  }

  lemma StandardIsHonest(server: Server, remote: Bytes)
    requires StandardServer(server, remote)
    ensures HonestServer(server, remote)
  {
    forall n, start
      ensures Honest(server(n, start), start, remote)
    {
      assert Standard(server(n, start), start, remote);
      if server(n, start).Answer? {
        StandardAnnounces(server(n, start), start, remote);
      }
    }
  }

  /**
   * Which standard replies are tried again: the ones that start elsewhere, break off, or
   * end before the file does.
   */
  lemma InterruptedIff(reply: Reply, size: nat, remote: Bytes)
    requires reply.Answer? && Standard(reply, size, remote)
    ensures Interrupted(reply, size) <==>
            reply.offset !in {size, 0} || reply.end.Broken? || Body(reply.chunks) != remote[reply.offset..]
  {
    StandardAnnounces(reply, size, remote);
    assert Body(reply.chunks) == remote[reply.offset..] <==> |Body(reply.chunks)| == |remote| - reply.offset;
  }

  /** The offset the client takes the body to start at. */
  function ClaimedStart(reply: Reply): Option<nat>
    requires reply.Answer?
  {
    if reply.partial then RangeStart(reply.contentRange) else Some(0)
  }

  /** How many bytes the client keeps, having `size` and getting this reply. */
  function Kept(reply: Reply, size: nat): nat
    requires reply.Answer?
  {
    if size > 0 && ClaimedStart(reply) != Some(size) then 0 else size
  }

  /** No request starts beyond the end. */
  predicate Within(asked: seq<nat>, size: nat) {
    forall i | 0 <= i < |asked| :: asked[i] <= size
  }

  /** Each of these requests was cut short. */
  predicate AllInterrupted(server: Server, asked: seq<nat>) {
    forall i | 0 <= i < |asked| :: Interrupted(server(i + 1, asked[i]), asked[i])
  }

  /** The reply does not bring the download to its end, but may be tried again. */
  predicate Interrupted(reply: Reply, size: nat) {
    || reply.NoReply?
    || (reply.Answer?
        && (|| (size > 0 && ClaimedStart(reply) !in {Some(size), Some(0)})
            || reply.end.Broken?
            || (ExpectedSize(reply).Some?
                && Kept(reply, size) + |Body(reply.chunks)| < ExpectedSize(reply).value)))
  }

  lemma InterruptedMore(server: Server, asked: seq<nat>, from: nat)
    requires AllInterrupted(server, asked) && Interrupted(server(|asked| + 1, from), from)
    ensures AllInterrupted(server, asked + [from])
  {
  }

  /** A true slice of the file from `start` on, as long as what is announced lets it be. */
  predicate SliceAt(chunks: seq<Bytes>, end: End, expected: Option<nat>, start: nat, remote: Bytes) {
    && start <= |remote| && Body(chunks) <= remote[start..]
    && (expected.Some? ==> expected.value == |remote|)
    && (expected.None? && end.Eof? ==> start + |Body(chunks)| == |remote|)
  }

  /** What the client keeps is where an honest reply's body starts. */
  lemma TrueSlice(reply: Reply, size: nat, remote: Bytes)
    requires Honest(reply, size, remote) && reply.Answer?
    requires size == 0 || ClaimedStart(reply) in {Some(size), Some(0)}
    ensures SliceAt(reply.chunks, reply.end, ExpectedSize(reply), Kept(reply, size), remote)
  {
  }

  // --- The download --------------------------------------------------------

  /** The files of one download: the destination and its .part file. */
  class Folder {
    var dest: Option<Bytes>
    var part: Option<Bytes>

    /** The part file is the first `size` bytes of the remote file. */
    ghost predicate Resumable(remote: Bytes, size: nat)
      reads this
    {
      && size <= |remote|
      && (size > 0 ==> part == Some(remote[..size]))
      && (part.Some? ==> part.value <= remote)
    }

    /**
     * The inner loop of one attempt: append the body to the part file, checking the
     * stop flag and the size cap before each chunk. `Done` means the body ended.
     */
    method Stream(chunks: seq<Bytes>, end: End, size0: nat, stops: nat -> bool, maxBytes: nat,
                  room: nat, peak0: nat)
      returns (r: Outcome, size: nat, peak: nat)
      requires size0 == 0 || (part.Some? && |part.value| == size0)
      requires size0 <= maxBytes && peak0 <= maxBytes
      modifies this`part
      ensures !r.HttpFailure?
      ensures peak0 <= peak <= maxBytes && part.Some? && |part.value| <= peak
      ensures r == Done ==> end.Eof?
      ensures r.Gone? ==> end == Broken(r.fault)
      ensures r == TooBig ==> size0 + |Body(chunks)| > maxBytes
      ensures r == DiskFull ==> size0 + |Body(chunks)| > room
      ensures r == Cancelled ==> exists i :: 0 <= i < |chunks| && stops(i)
      ensures r == Done || r.Gone? ==>
                part == Some((if size0 > 0 then old(part.value) else []) + Body(chunks))
                && size == |part.value|
    {
      size, peak := size0, peak0;
      if size == 0 {
        part := Some([]);
      }
      ghost var before := part.value;
      assert Body(chunks[..0]) == [] && before + [] == before;
      if peak < |part.value| {
        peak := |part.value|;
      }
      for i := 0 to |chunks|
        invariant part == Some(before + Body(chunks[..i])) && size == |part.value|
        invariant size <= peak <= maxBytes && peak0 <= peak
        invariant |Body(chunks[..i])| <= |Body(chunks)|
      {
        assert chunks[..i + 1][..i] == chunks[..i];
        BodyGrows(chunks, i + 1);
        if stops(i) {
          r := Cancelled;
          return;
        }
        size := size + |chunks[i]|;
        if size > maxBytes {
          r := TooBig;
          return;
        }
        if size > room {
          r := DiskFull;
          return;
        }
        part := Some(part.value + chunks[i]);
        assert before + Body(chunks[..i]) + chunks[i] == before + Body(chunks[..i + 1]);
        if peak < |part.value| {
          peak := |part.value|;
        }
      }
      assert chunks[..|chunks|] == chunks;
      r := if end.Eof? then Done else Gone(end.fault);
    }

    /** There is a part file of this size, unless the download starts afresh. */
    ghost predicate Holds(size: nat)
      reads this
    {
      size == 0 || (part.Some? && |part.value| == size)
    }

    /**
     * One attempt, having `size0` bytes. `Gone` means that it may be repeated with the
     * `size` bytes there are now; `Done`, from an honest reply, that the part file is the
     * whole remote file.
     */
    method Attempt(reply: Reply, size0: nat, stops: nat -> bool, maxBytes: nat, room: nat,
                   peak0: nat, ghost remote: Bytes)
      returns (r: Outcome, size: nat, peak: nat)
      requires Holds(size0) && size0 <= maxBytes && peak0 <= maxBytes
      modifies this`part
      ensures peak0 <= peak <= maxBytes
      ensures r == Done ==> part.Some? && |part.value| <= maxBytes
      ensures r.Gone? ==> Holds(size) && size <= maxBytes && Interrupted(reply, size0)
      ensures r.HttpFailure? ==> reply == Refused(r.code)
      ensures r == Cancelled ==> exists i :: stops(i)
      ensures Honest(reply, size0, remote) && old(Resumable(remote, size0)) ==>
                TrueSoFar(r, size, remote, maxBytes, room)
    {
      size, peak := size0, peak0;
      if reply.Refused? {
        r := HttpFailure(reply.code);
        return;
      }
      if reply.NoReply? {
        r := Gone(reply.fault);
        return;
      }
      var start := ClaimedStart(reply);
      size := Kept(reply, size0);
      if size0 > 0 && start !in {Some(size0), Some(0)} {
        r := Gone(Drop);
        return;
      }
      if Honest(reply, size0, remote) {
        TrueSlice(reply, size0, remote);
      }
      r, size, peak := Receive(reply.chunks, reply.end, ExpectedSize(reply), size, stops, maxBytes, room, peak, remote);
    }

    /** What the outcome of an attempt says about the remote file. */
    ghost predicate TrueSoFar(r: Outcome, size: nat, remote: Bytes, maxBytes: nat, room: nat)
      reads this
    {
      && (r == Done ==> part == Some(remote))
      && (r.Gone? ==> Resumable(remote, size))
      && (r == TooBig ==> |remote| > maxBytes)
      && (r == DiskFull ==> |remote| > room)
    }

    /** Read a body that starts at `kept`; one that ends before the announced size was cut short. */
    method Receive(chunks: seq<Bytes>, end: End, expected: Option<nat>, kept: nat, stops: nat -> bool,
                   maxBytes: nat, room: nat, peak0: nat, ghost remote: Bytes)
      returns (r: Outcome, size: nat, peak: nat)
      requires Holds(kept) && kept <= maxBytes && peak0 <= maxBytes
      modifies this`part
      ensures peak0 <= peak <= maxBytes && !r.HttpFailure?
      ensures r == Done ==> part.Some? && |part.value| <= maxBytes
      ensures r.Gone? ==> Holds(size) && size <= maxBytes
      ensures r.Gone? ==> end.Broken? || (expected.Some? && kept + |Body(chunks)| < expected.value)
      ensures r == Cancelled ==> exists i :: stops(i)
      ensures SliceAt(chunks, end, expected, kept, remote) && old(Resumable(remote, kept)) ==>
                TrueSoFar(r, size, remote, maxBytes, room)
    {
      if SliceAt(chunks, end, expected, kept, remote) {
        PrefixExtends(remote, kept, Body(chunks));
      }
      r, size, peak := Stream(chunks, end, kept, stops, maxBytes, room, peak0);
      if r == Done {
        if expected.Some? && expected.value > 0 && size < expected.value {
          r := Gone(Drop);
        } else if SliceAt(chunks, end, expected, kept, remote) && old(Resumable(remote, kept)) {
          assert size == kept + |Body(chunks)| == |remote|;
          assert remote[..size] == remote;
        }
      }
    }

    /**
     * `download`. Against any server: at most `ATTEMPTS` requests, each but the last cut
     * short; never more than the cap in the part file, which is gone at the end; and the
     * destination is touched only when the download is done. Against an honest one, and
     * so against one with standard headers whose bodies may end early, the destination is
     * then the whole remote file.
     */
    method Download(server: Server, stops: (nat, nat) -> bool, maxBytes: nat, room: nat,
                    ghost remote: Bytes)
      returns (r: Outcome, asked: seq<nat>, peak: nat)
      modifies this
      ensures part == None
      ensures if r == Done then dest.Some? && |dest.value| <= maxBytes else dest == old(dest)
      ensures 1 <= |asked| <= ATTEMPTS && asked[0] == 0 && peak <= maxBytes
      ensures AllInterrupted(server, asked[..|asked| - 1])
      ensures r.HttpFailure? ==> server(|asked|, asked[|asked| - 1]) == Refused(r.code)
      ensures r.Gone? ==> |asked| == ATTEMPTS && Interrupted(server(ATTEMPTS, asked[ATTEMPTS - 1]), asked[ATTEMPTS - 1])
      ensures r == Cancelled ==> exists n, i :: stops(n, i)
      ensures StandardServer(server, remote) && r == Done ==> dest == Some(remote)
      ensures HonestServer(server, remote) ==>
                && (r == Done ==> dest == Some(remote))
                && (r == TooBig ==> |remote| > maxBytes)
                && (r == DiskFull ==> |remote| > room)
                && forall i | 0 <= i < |asked| :: asked[i] <= |remote|
    {
      if StandardServer(server, remote) {
        StandardIsHonest(server, remote);
      }
      part := None;
      asked, peak := [], 0;
      var size: nat := 0;
      var attempt := 1;
      while true
        invariant 1 <= attempt <= ATTEMPTS && |asked| == attempt - 1
        invariant Holds(size) && size <= maxBytes && peak <= maxBytes
        invariant dest == old(dest) && AllInterrupted(server, asked)
        invariant if asked == [] then size == 0 else asked[0] == 0
        invariant HonestServer(server, remote) ==> Resumable(remote, size) && Within(asked, |remote|)
        decreases ATTEMPTS - attempt
      {
        var reply := server(attempt, size);
        if HonestServer(server, remote) {
          assert Honest(reply, size, remote);
        }
        ghost var before, from := asked, size;
        asked := asked + [size];
        assert asked[..|asked| - 1] == before;
        r, size, peak := Attempt(reply, size, (i: nat) => stops(attempt, i), maxBytes, room, peak, remote);
        if r == Done {
          dest := part;
        }
        if !r.Gone? || attempt == ATTEMPTS {
          part := None;
          return;
        }
        InterruptedMore(server, before, from);
        attempt := attempt + 1;
      }
    }
  }

  /** A true continuation of a prefix gives a longer prefix. */
  lemma PrefixExtends(remote: Bytes, size: nat, body: Bytes)
    requires size <= |remote| && body <= remote[size..]
    ensures size + |body| <= |remote| && remote[..size] + body == remote[..size + |body|]
  {
  }

  lemma {:induction false} BodyGrows(chunks: seq<Bytes>, n: nat)
    requires n <= |chunks|
    ensures |Body(chunks[..n])| <= |Body(chunks)|
    decreases |chunks| - n
  {
    if n == |chunks| {
      assert chunks[..n] == chunks;
    } else {
      assert chunks[..n + 1][..n] == chunks[..n];
      BodyGrows(chunks, n + 1);
    }
  }
}
