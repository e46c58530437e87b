/** The range downloader of iotc_https_ota.c: a loop over chunks with bounded
    reconnects, and a file written block by block. The network and the file layer are
    arbitrary; what they did is recorded in a trace. */
module OtaDownload {
  import opened Words

  const DATA_CHUNK_SIZE: nat := 4096
  const TRIES: nat := 30

  datatype HttpOutcome = Success(body: seq<byte>) | NetworkError | OtherError

  /** One thing the download did: creating the file, preparing the headers of a
      chunk's request, one send of that request, or writing one block. */
  datatype Action =
    | Created(ok: bool)
    | Prepared(start: nat, ok: bool)
    | Exchange(start: nat, last: int, outcome: HttpOutcome)
    | Wrote(start: nat, data: seq<byte>, stored: nat)

  function S16(x: int): int {
    var u := x % 0x1_0000;
    if u < 0x8000 then u else u - 0x1_0000
  }

  function ChunkEnd(start: nat, dataLength: int): int {
    Min(start + DATA_CHUNK_SIZE, dataLength)
  }

  /** `otaPal_WriteBlock` returns a 16-bit count, compared with the 16-bit body length. */
  predicate WriteAccepted(a: Action) { a.Wrote? && S16(a.stored) == S16(|a.data|) }

  predicate IsNetworkError(a: Action) { a.Exchange? && a.outcome.NetworkError? }

  /** How many network errors the trace ends with. */
  function TrailingErrors(trace: seq<Action>): nat {
    if trace == [] || !IsNetworkError(trace[|trace| - 1]) then 0
    else 1 + TrailingErrors(trace[..|trace| - 1])
  }

  /** Which action may follow which. */
  ghost predicate Follows(dataLength: int, a: Action, b: Action) {
    match a
    case Created(ok) => ok && 0 < dataLength && b.Prepared? && b.start == 0
    case Prepared(start, ok) => ok && b.Exchange? && b.start == start && b.last == ChunkEnd(start, dataLength) - 1
    case Exchange(start, last, NetworkError) => start != 0 && b.Exchange? && b.start == start && b.last == last
    case Exchange(start, _, Success(body)) => b.Wrote? && b.start == start && b.data == body && b.stored <= |body|
    case Exchange(_, _, OtherError) => false
    case Wrote(start, _, _) =>
      WriteAccepted(a) && start + DATA_CHUNK_SIZE < dataLength && b.Prepared? && b.start == start + DATA_CHUNK_SIZE
  }

  /** The protocol: each action follows the one before, and a request is sent again only
      after fewer than 31 network errors in a row. */
  ghost predicate Protocol(dataLength: int, trace: seq<Action>) {
    && (trace != [] ==> trace[0].Created?)
    && (forall k :: 0 <= k < |trace| - 1 ==> Follows(dataLength, trace[k], trace[k + 1]))
    && (forall k :: 0 <= k < |trace| && trace[k].Exchange? ==> TrailingErrors(trace[..k]) <= TRIES)
  }

  /** The trace ends because nothing is left to do. */
  ghost predicate Completed(dataLength: int, trace: seq<Action>) {
    trace != [] &&
    match trace[|trace| - 1]
    case Created(ok) => ok && dataLength <= 0
    case Wrote(start, _, _) => WriteAccepted(trace[|trace| - 1]) && start + DATA_CHUNK_SIZE >= dataLength
    case _ => false
  }

  /** The trace ends because its last action failed for good. */
  ghost predicate GaveUp(trace: seq<Action>) {
    trace != [] &&
    match trace[|trace| - 1]
    case Created(ok) => !ok
    case Prepared(_, ok) => !ok
    case Exchange(_, _, OtherError) => true
    case Exchange(start, _, NetworkError) => start == 0 || TrailingErrors(trace) == TRIES + 1
    case Exchange(_, _, Success(_)) => false
    case Wrote(_, _, _) => !WriteAccepted(trace[|trace| - 1])
  }

  /** A block of bytes at an offset. */
  function Block(offset: nat, data: seq<byte>): (r: map<nat, byte>)
    ensures forall i: nat :: i in r <==> offset <= i < offset + |data|
    ensures forall i: nat :: i in r ==> r[i] == data[i - offset]
  {
    map i: nat | offset <= i < offset + |data| && Within(offset, |data|, i) :: data[i - offset]
  }

  predicate Within(offset: nat, n: nat, i: nat) { offset <= i < offset + n }

  /** The file the writes of a trace leave behind. */
  ghost function Written(trace: seq<Action>): map<nat, byte> {
    if trace == [] then map[]
    else
      var before := Written(trace[..|trace| - 1]);
      var a := trace[|trace| - 1];
      if a.Wrote? && a.stored <= |a.data| then before + Block(a.start, a.data[..a.stored]) else before
  }

  // ----- The code -----

  class Downloader {
    var file: map<nat, byte>
    ghost var trace: seq<Action>

    method CreateFile() returns (ok: bool)
      modifies this
      ensures file == map[] && trace == [Created(ok)]
    {
      ok := *;
      file := map[];
      trace := [Created(ok)];
    }

    method PrepareHeaders(start: nat) returns (ok: bool)
      modifies this`trace
      ensures trace == old(trace) + [Prepared(start, ok)]
    {
      ok := *;
      trace := trace + [Prepared(start, ok)];
    }

    method Send(first: nat, last: int) returns (outcome: HttpOutcome)
      modifies this`trace
      ensures trace == old(trace) + [Exchange(first, last, outcome)]
    {
      outcome := *;
      trace := trace + [Exchange(first, last, outcome)];
    }

    /** Stores some first part of the block and says how much. */
    method WriteBlock(offset: nat, data: seq<byte>) returns (count: int)
      modifies this
      ensures exists stored: nat :: stored <= |data| && count == S16(stored)
                && trace == old(trace) + [Wrote(offset, data, stored)]
                && file == old(file) + Block(offset, data[..stored])
    {
      var stored: nat :| stored <= |data|;
      file := file + Block(offset, data[..stored]);
      trace := trace + [Wrote(offset, data, stored)];
      count := S16(stored);
    }

    method Download(dataLength: int) returns (result: int)
      modifies this
      ensures Protocol(dataLength, trace) && file == Written(trace)
      ensures result == 0 || result == -1
      ensures result == 0 ==> Completed(dataLength, trace)
      ensures result == -1 ==> GaveUp(trace)
    {
      hide Protocol, Written, TrailingErrors, Block;
      var created := CreateFile();
      Begin(dataLength, created);
      if !created {
        return -1;
      }
      var dataStart: nat := 0;
      while dataStart < dataLength
        invariant Protocol(dataLength, trace) && file == Written(trace) && trace != []
        invariant dataStart == 0 ==> trace == [Created(true)]
        invariant dataStart > 0 ==>
                    && WriteAccepted(trace[|trace| - 1])
                    && trace[|trace| - 1].start + DATA_CHUNK_SIZE == dataStart
        decreases dataLength - dataStart
      {
        var dataEnd := dataStart + DATA_CHUNK_SIZE;
        if dataEnd > dataLength {
          dataEnd := dataLength;
        }
        label preparing:
        var prepared := PrepareHeaders(dataStart);
        Extend(dataLength, old@preparing(trace), Prepared(dataStart, prepared));
        if !prepared {
          return -1;
        }
        var triesRemaining := TRIES;
        var outcome: HttpOutcome;
        while true
          invariant Protocol(dataLength, trace) && file == Written(trace) && trace != []
          invariant 0 <= triesRemaining <= TRIES
          invariant TrailingErrors(trace) == TRIES - triesRemaining
          invariant triesRemaining == TRIES ==> trace[|trace| - 1] == Prepared(dataStart, true)
          invariant triesRemaining < TRIES ==>
                      dataStart != 0 && trace[|trace| - 1] == Exchange(dataStart, dataEnd - 1, NetworkError)
          decreases triesRemaining
        {
          label sending:
          outcome := Send(dataStart, dataEnd - 1);
          Extend(dataLength, old@sending(trace), Exchange(dataStart, dataEnd - 1, outcome));
          if 0 != dataStart && outcome.NetworkError? {
            if triesRemaining == 0 {
              return -1;
            }
            // reconnect
            triesRemaining := triesRemaining - 1;
          } else if !outcome.Success? {
            return -1;
          }
          if !outcome.NetworkError? {
            break;
          }
        }
        label writing:
        var bytesWritten := WriteBlock(dataStart, outcome.body);
        ghost var stored: nat :| stored <= |outcome.body| && bytesWritten == S16(stored)
                              && trace == old@writing(trace) + [Wrote(dataStart, outcome.body, stored)]
                              && file == old@writing(file) + Block(dataStart, outcome.body[..stored]);
        Extend(dataLength, old@writing(trace), Wrote(dataStart, outcome.body, stored));
        if bytesWritten != S16(|outcome.body|) {
          return -1;
        }
        dataStart := dataStart + DATA_CHUNK_SIZE;
      }
      return 0;
    }
  }

  lemma Begin(dataLength: int, ok: bool)
    ensures Protocol(dataLength, [Created(ok)]) && Written([Created(ok)]) == map[]
    ensures TrailingErrors([Created(ok)]) == 0
  {
    assert [Created(ok)][..0] == [];
  }

  lemma Extend(dataLength: int, trace: seq<Action>, a: Action)
    requires Protocol(dataLength, trace) && trace != []
    requires Follows(dataLength, trace[|trace| - 1], a)
    requires a.Exchange? ==> TrailingErrors(trace) <= TRIES
    ensures var longer := trace + [a];
            && Protocol(dataLength, longer)
            && TrailingErrors(longer) == (if IsNetworkError(a) then TrailingErrors(trace) + 1 else 0)
            && Written(longer) == (if a.Wrote? && a.stored <= |a.data|
                                   then Written(trace) + Block(a.start, a.data[..a.stored])
                                   else Written(trace))
  {
    hide Follows, WriteAccepted, Block;
    var longer := trace + [a];
    assert longer[..|trace|] == trace;
    forall k | 0 <= k < |longer| && longer[k].Exchange?
      ensures TrailingErrors(longer[..k]) <= TRIES
    {
      assert longer[..k] == trace[..k];
      if k == |trace| {
        assert trace[..k] == trace;
      }
    }
  }

  // ----- What a trace of the protocol means -----

  lemma Shorter(dataLength: int, trace: seq<Action>)
    requires Protocol(dataLength, trace) && trace != []
    ensures Protocol(dataLength, trace[..|trace| - 1])
  {
    var init := trace[..|trace| - 1];
    forall k | 0 <= k < |init| && init[k].Exchange?
      ensures TrailingErrors(init[..k]) <= TRIES
    {
      assert init[..k] == trace[..k];
    }
  }

  /** How far the download is at an action: the first byte not yet requested for good. */
  ghost function Position(a: Action): nat {
    match a
    case Created(_) => 0
    case Prepared(start, _) => start
    case Exchange(start, _, _) => start
    case Wrote(start, _, _) => start + DATA_CHUNK_SIZE
  }

  /** Every request asks for the bytes of one chunk: at most 4096, from a multiple of 4096
      up to the end of the image. */
  lemma {:induction false} RangesAreChunks(dataLength: int, trace: seq<Action>, k: nat)
    requires Protocol(dataLength, trace) && k < |trace|
    ensures Position(trace[k]) % DATA_CHUNK_SIZE == 0
    ensures !trace[k].Created? ==> trace[k].start < dataLength && trace[k].start % DATA_CHUNK_SIZE == 0
    ensures trace[k].Exchange? ==>
              && trace[k].start % 4096 == 0 && trace[k].start <= trace[k].last
              && trace[k].last - trace[k].start + 1 == Min(4096, dataLength - trace[k].start)
  {
    if k > 0 {
      RangesAreChunks(dataLength, trace, k - 1);
      assert Follows(dataLength, trace[k - 1], trace[k]);
    }
  }

  /** The C code keeps offsets in a signed 32-bit `int` and computes the end of each chunk as start + 4096. In a
      completed download of an image whose length is an `int`, no such sum overflows if and only if the length
      is at most 2^31 - 4096. */
  lemma OffsetsFitInt(dataLength: s32, trace: seq<Action>)
    requires 0 < dataLength && Protocol(dataLength, trace) && Completed(dataLength, trace)
    ensures (forall k :: 0 <= k < |trace| && !trace[k].Created? ==> trace[k].start + DATA_CHUNK_SIZE < TWO_31)
            <==> dataLength <= TWO_31 - DATA_CHUNK_SIZE
  {
    hide Protocol;
    forall k: nat | k < |trace| && !trace[k].Created?
      ensures trace[k].start < dataLength && trace[k].start % DATA_CHUNK_SIZE == 0
    {
      RangesAreChunks(dataLength, trace, k);
    }
    var last := trace[|trace| - 1];
    assert last.Wrote? && last.start + DATA_CHUNK_SIZE >= dataLength;
  }

  /** The download never goes back, and a range that was answered is never asked for again. */
  lemma {:induction false} RangesInOrder(dataLength: int, trace: seq<Action>, j: nat, k: nat)
    requires Protocol(dataLength, trace) && j < k < |trace|
    ensures Position(trace[j]) <= Position(trace[k])
    ensures trace[j].Exchange? && trace[j].outcome.Success? && trace[k].Exchange? ==> trace[j].last < trace[k].start
    ensures trace[j].Exchange? && trace[j].outcome.Success? ==>
              Position(trace[k]) >= trace[j].start + DATA_CHUNK_SIZE
    decreases k
  {
    assert Follows(dataLength, trace[k - 1], trace[k]);
    RangesAreChunks(dataLength, trace, j);
    if j < k - 1 {
      RangesInOrder(dataLength, trace, j, k - 1);
    }
  }

  ghost predicate Fetched(trace: seq<Action>, i: int) {
    exists k :: 0 <= k < |trace| && trace[k].Exchange? && trace[k].outcome.Success? && trace[k].start <= i <= trace[k].last
  }

  /** Everything before the position lies in an answered range. */
  lemma {:induction false} CoveredSoFar(dataLength: int, trace: seq<Action>, k: nat, i: nat)
    requires Protocol(dataLength, trace) && k < |trace| && i < dataLength && i < Position(trace[k])
    ensures Fetched(trace, i)
    decreases k
  {
    RangesAreChunks(dataLength, trace, k);
    if k > 0 {
      assert Follows(dataLength, trace[k - 1], trace[k]);
      RangesAreChunks(dataLength, trace, k - 1);
      if i < Position(trace[k - 1]) {
        CoveredSoFar(dataLength, trace, k - 1, i);
      } else {
        assert trace[k - 1].Exchange? && trace[k - 1].start <= i <= trace[k - 1].last;
      }
    }
  }

  /** A completed download has fetched every byte, and each in exactly one answered range. */
  lemma RangesPartition(dataLength: int, trace: seq<Action>)
    requires Protocol(dataLength, trace) && Completed(dataLength, trace)
    ensures forall i: nat :: i < dataLength ==> Fetched(trace, i)
    ensures forall j, k :: 0 <= j < k < |trace| && trace[j].Exchange? && trace[j].outcome.Success? && trace[k].Exchange?
              ==> trace[j].last < trace[k].start
  {
    forall i: nat | i < dataLength
      ensures Fetched(trace, i)
    {
      CoveredSoFar(dataLength, trace, |trace| - 1, i);
    }
    forall j: nat, k: nat | j < k < |trace| && trace[j].Exchange? && trace[j].outcome.Success? && trace[k].Exchange?
      ensures trace[j].last < trace[k].start
    {
      RangesInOrder(dataLength, trace, j, k);
    }
  }

  // ----- Reassembly -----

  /** Section 14.1.2 of RFC 9110: a successful response to a range request carries exactly
      the bytes asked for. */
  ghost predicate Honest(trace: seq<Action>, image: seq<byte>) {
    forall k :: 0 <= k < |trace| && trace[k].Exchange? && trace[k].outcome.Success? ==>
      0 <= trace[k].start <= trace[k].last < |image| && trace[k].outcome.body == image[trace[k].start..trace[k].last + 1]
  }

  function Prefix(image: seq<byte>, n: nat): map<nat, byte> {
    map i: nat | i < n && i < |image| :: image[i]
  }

  lemma EmptyPrefix(image: seq<byte>)
    ensures Prefix(image, 0) == map[]
  {
  }

  lemma PrefixGrows(image: seq<byte>, start: nat, data: seq<byte>)
    requires start < |image| && data == image[start..ChunkEnd(start, |image|)]
    ensures Prefix(image, start) + Block(start, data) == Prefix(image, start + DATA_CHUNK_SIZE)
  {
  }

  lemma {:induction false} WrittenSoFar(image: seq<byte>, trace: seq<Action>)
    requires Protocol(|image|, trace) && Honest(trace, image) && trace != []
    requires trace[|trace| - 1].Wrote? ==> WriteAccepted(trace[|trace| - 1])
    ensures Written(trace) == Prefix(image, Position(trace[|trace| - 1]))
  {
    hide Prefix, Block, TrailingErrors, S16;
    var n := |trace|;
    var init, a := trace[..n - 1], trace[n - 1];
    if n == 1 {
      assert Written(init) == map[];
      EmptyPrefix(image);
    } else {
      Shorter(|image|, trace);
      assert Follows(|image|, init[n - 2], a);
      assert init[n - 2] == trace[n - 2];
      HonestPrefix(trace, image, n - 1);
      WrittenSoFar(image, init);
      if a.Wrote? {
        RangesAreChunks(|image|, trace, n - 2);
        WholeBlock(image, trace[n - 2], a);
        PrefixGrows(image, a.start, a.data);
      }
    }
  }

  lemma HonestPrefix(trace: seq<Action>, image: seq<byte>, k: nat)
    requires Honest(trace, image) && k <= |trace|
    ensures Honest(trace[..k], image)
  {
  }

  lemma WholeBlock(image: seq<byte>, e: Action, a: Action)
    requires e.Exchange? && e.outcome.Success? && a.Wrote? && Follows(|image|, e, a) && WriteAccepted(a)
    requires e.start <= e.last < |image| && e.last == ChunkEnd(e.start, |image|) - 1
    requires e.outcome.body == image[e.start..e.last + 1]
    ensures a.stored == |a.data| && a.data[..a.stored] == a.data
    ensures a.data == image[a.start..ChunkEnd(a.start, |image|)]
  {
    assert |a.data| <= DATA_CHUNK_SIZE;
  }

  /** Before each chunk the file holds exactly the image up to the chunk's start, whatever
      errors and reconnects came before. */
  lemma PrefixBeforeChunk(image: seq<byte>, trace: seq<Action>, k: nat)
    requires Protocol(|image|, trace) && Honest(trace, image)
    requires k < |trace| && trace[k].Prepared?
    ensures Written(trace[..k + 1]) == Prefix(image, trace[k].start)
  {
    hide Protocol, Honest, Written, Prefix;
    ProtocolPrefix(|image|, trace, k + 1);
    HonestPrefix(trace, image, k + 1);
    WrittenSoFar(image, trace[..k + 1]);
  }

  lemma ProtocolPrefix(dataLength: int, trace: seq<Action>, k: nat)
    requires Protocol(dataLength, trace) && k <= |trace|
    ensures Protocol(dataLength, trace[..k])
  {
    var p := trace[..k];
    forall m | 0 <= m < |p| && p[m].Exchange?
      ensures TrailingErrors(p[..m]) <= TRIES
    {
      assert p[..m] == trace[..m];
    }
  }

  /** A download that reports success has put the whole image together, byte for byte. */
  lemma Reassembly(image: seq<byte>, trace: seq<Action>)
    requires Protocol(|image|, trace) && Completed(|image|, trace) && Honest(trace, image)
    ensures Written(trace) == map i: nat | i < |image| :: image[i]
  {
    WrittenSoFar(image, trace);
    RangesAreChunks(|image|, trace, |trace| - 1);
  }

  /** A download that gives up leaves a prefix of the image, and possibly a part of the next
      block, but never a byte that differs from the image. */
  lemma NothingWrong(image: seq<byte>, trace: seq<Action>)
    requires Protocol(|image|, trace) && Honest(trace, image)
    ensures forall i :: i in Written(trace) ==> i < |image| && Written(trace)[i] == image[i]
  {
    hide Follows, Protocol, Honest, Block;
    if trace != [] {
      var a := trace[|trace| - 1];
      if a.Wrote? {
        PartialBlock(image, trace);
      } else {
        WrittenSoFar(image, trace);
      }
    }
  }

  lemma PartialBlock(image: seq<byte>, trace: seq<Action>)
    requires Protocol(|image|, trace) && Honest(trace, image) && trace != [] && trace[|trace| - 1].Wrote?
    ensures var a := trace[|trace| - 1];
            && a.stored <= |a.data| && a.start + |a.data| <= |image|
            && Written(trace) == Prefix(image, a.start) + Block(a.start, a.data[..a.stored])
            && forall i :: 0 <= i < |a.data| ==> a.data[i] == image[a.start + i]
  {
    var n := |trace|;
    var init, a := trace[..n - 1], trace[n - 1];
    assert Follows(|image|, trace[n - 2], a);
    assert init[n - 2] == trace[n - 2];
    Shorter(|image|, trace);
    HonestPrefix(trace, image, n - 1);
    WrittenSoFar(image, init);
  }

  // ----- Giving up -----

  lemma {:induction false} ErrorsInARow(trace: seq<Action>, k: nat)
    requires k < TrailingErrors(trace)
    ensures TrailingErrors(trace) <= |trace| && IsNetworkError(trace[|trace| - 1 - k])
    decreases |trace|
  {
    if k > 0 {
      ErrorsInARow(trace[..|trace| - 1], k - 1);
    } else {
      TrailingErrorsLength(trace);
    }
  }

  lemma {:induction false} TrailingErrorsLength(trace: seq<Action>)
    ensures TrailingErrors(trace) <= |trace|
    ensures TrailingErrors(trace) < |trace| ==> !IsNetworkError(trace[|trace| - 1 - TrailingErrors(trace)])
  {
    if trace != [] && IsNetworkError(trace[|trace| - 1]) {
      TrailingErrorsLength(trace[..|trace| - 1]);
    }
  }

  lemma {:induction false} SameRange(dataLength: int, trace: seq<Action>, k: nat)
    requires Protocol(dataLength, trace) && k < TrailingErrors(trace)
    ensures k < |trace| && trace[|trace| - 1 - k] == trace[|trace| - 1]
  {
    TrailingErrorsLength(trace);
    ErrorsInARow(trace, k);
    if k > 0 {
      SameRange(dataLength, trace, k - 1);
      assert Follows(dataLength, trace[|trace| - 1 - k], trace[|trace| - k]);
    }
  }

  /** A download that gives up on a network error beyond the first chunk has met exactly 31 of them in a row, all for the
      same range. */
  lemma GivesUpAfter31(dataLength: int, trace: seq<Action>)
    requires Protocol(dataLength, trace) && GaveUp(trace)
    requires IsNetworkError(trace[|trace| - 1]) && trace[|trace| - 1].start != 0
    ensures |trace| >= 32 && forall m :: |trace| - 31 <= m < |trace| ==> trace[m] == trace[|trace| - 1]
    ensures !IsNetworkError(trace[|trace| - 32])
  {
    hide Protocol;
    TrailingErrorsLength(trace);
    forall m | |trace| - 31 <= m < |trace|
      ensures trace[m] == trace[|trace| - 1]
    {
      SameRange(dataLength, trace, |trace| - 1 - m);
    }
    CreatedFirst(dataLength, trace);
  }

  lemma CreatedFirst(dataLength: int, trace: seq<Action>)
    requires Protocol(dataLength, trace) && trace != []
    ensures trace[0].Created?
  {
  }

  /** Every other failure ends the download at once: of the file, of the request's headers, of the server, of the network
      in the first chunk, and a block that was not written whole. */
  lemma OtherFailuresAreLast(dataLength: int, trace: seq<Action>, k: nat)
    requires Protocol(dataLength, trace) && k < |trace| - 1
    ensures match trace[k]
            case Created(ok) => ok
            case Prepared(_, ok) => ok
            case Exchange(start, _, outcome) => outcome.Success? || (outcome.NetworkError? && start >= 4096)
            case Wrote(_, data, stored) => |data| <= 4096 && stored <= |data| ==> stored == |data|
  {
    assert Follows(dataLength, trace[k], trace[k + 1]);
    RangesAreChunks(dataLength, trace, k);
  }

  /** And after 31 network errors in a row nothing is sent any more. */
  lemma NothingAfter31(dataLength: int, trace: seq<Action>, k: nat)
    requires Protocol(dataLength, trace) && 31 <= k < |trace| && trace[k].Exchange?
    ensures exists j :: k - 31 <= j < k && !IsNetworkError(trace[j])
  {
    TrailingErrorsLength(trace[..k]);
    var j := k - 1 - TrailingErrors(trace[..k]);
    assert !IsNetworkError(trace[j]);
  }

  // ----- Sends -----

  function Sends(trace: seq<Action>): nat {
    if trace == [] then 0 else Sends(trace[..|trace| - 1]) + if trace[|trace| - 1].Exchange? then 1 else 0
  }

  /** Chunk 0 is sent once, every later one at most 31 times. */
  function Budget(chunks: nat): nat {
    if chunks == 0 then 0 else 1 + (TRIES + 1) * (chunks - 1)
  }

  lemma {:induction false} SendsSoFar(dataLength: int, trace: seq<Action>)
    requires Protocol(dataLength, trace) && trace != []
    ensures var a := trace[|trace| - 1];
            Sends(trace) <= match a
              case Created(_) => 0
              case Prepared(start, _) => Budget(start / DATA_CHUNK_SIZE)
              case Exchange(start, _, outcome) =>
                if outcome.NetworkError? && start != 0 then Budget(start / DATA_CHUNK_SIZE) + TrailingErrors(trace)
                else Budget(start / DATA_CHUNK_SIZE + 1)
              case Wrote(start, _, _) => Budget(start / DATA_CHUNK_SIZE + 1)
  {
    var n := |trace|;
    var init, a := trace[..n - 1], trace[n - 1];
    if n > 1 {
      Shorter(dataLength, trace);
      assert Follows(dataLength, init[n - 2], a);
      SendsSoFar(dataLength, init);
      RangesAreChunks(dataLength, trace, n - 1);
      RangesAreChunks(dataLength, trace, n - 2);
      assert a.Exchange? ==> TrailingErrors(init) <= TRIES;
    } else {
      assert Sends(init) == 0;
    }
  }

  /** For an image of `n` chunks of 4096 bytes the download makes at most 1 + 31 (n - 1) requests, so
      at most 2 + 31 (n - 1) with the size query before it. */
  lemma SendBound(dataLength: nat, trace: seq<Action>)
    requires Protocol(dataLength, trace)
    ensures var n := (dataLength + 4095) / 4096;
            Sends(trace) <= if n == 0 then 0 else 1 + 31 * (n - 1)
  {
    if trace != [] {
      var a := trace[|trace| - 1];
      SendsSoFar(dataLength, trace);
      RangesAreChunks(dataLength, trace, |trace| - 1);
      if a.Exchange? {
        ErrorsAtEnd(dataLength, trace);
      }
      hide Budget, Protocol, Sends, TrailingErrors;
      if !a.Created? {
        BudgetOf(dataLength, a.start);
      }
    }
  }

  lemma ErrorsAtEnd(dataLength: int, trace: seq<Action>)
    requires Protocol(dataLength, trace) && trace != [] && trace[|trace| - 1].Exchange?
    ensures TrailingErrors(trace) <= 31
  {
    assert TrailingErrors(trace[..|trace| - 1]) <= TRIES;
  }

  /** What may have been sent by the end of the chunk at `start`. */
  lemma BudgetOf(dataLength: nat, start: nat)
    requires start < dataLength && start % 4096 == 0
    ensures var n := (dataLength + 4095) / 4096;
            && n >= 1 && Budget(start / 4096 + 1) <= 1 + 31 * (n - 1) && Budget(start / 4096) <= 1 + 31 * (n - 1)
            && (start != 0 ==> Budget(start / 4096) + 31 <= 1 + 31 * (n - 1))
  {
    assert start / 4096 + 1 <= (dataLength + 4095) / 4096;
  }
}
