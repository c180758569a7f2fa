/** How a source of bytes is framed into one write request, and how the answer is checked against it. */
module WriteRequest {
  import opened Wrappers
  import opened Utf8

  const CHUNK_MAX: nat := 65536
  const U64_MAX: nat := 0xFFFF_FFFF_FFFF_FFFF

  datatype WriteHeader = WriteHeader(directory: Bytes, name: Bytes, replace: bool)

  datatype Frame = Header(header: WriteHeader) | Data(data: Bytes) | Commit

  datatype SourceItem = Chunk(bytes: Bytes) | Failure(error: string)

  type Source = seq<SourceItem>

  const EMPTY_CHUNK := "source emitted an empty data chunk"
  const OVERFLOW := "source byte count overflowed"

  // ----- what a source holds -----

  /** The bytes of a source before it fails, and how it fails, if it does. */
  function Before(source: Source): Bytes {
    if source == [] || source[0].Failure? || source[0].bytes == [] then [] else source[0].bytes + Before(source[1..])
  }

  function FailureOf(source: Source): Option<string> {
    if source == [] then None
    else if source[0].Failure? then Some(source[0].error)
    else if source[0].bytes == [] then Some(EMPTY_CHUNK)
    else FailureOf(source[1..])
  }

  /** An item that is a chunk with something in it. */
  predicate Gives(item: SourceItem) {
    item.Chunk? && item.bytes != []
  }

  function BytesOf(items: seq<SourceItem>): Bytes {
    if items == [] then [] else BytesOf(items[..|items| - 1]) + if items[|items| - 1].Chunk? then items[|items| - 1].bytes else []
  }

  /** A source fails at its first item that is not a chunk with something in it, and holds the bytes before that. */
  lemma {:induction false} FailsExactly(source: Source, k: nat)
    requires k <= |source| && (forall j :: 0 <= j < k ==> Gives(source[j])) && (k < |source| ==> !Gives(source[k]))
    ensures Before(source) == BytesOf(source[..k])
    ensures FailureOf(source) == if k == |source| then None else Some(if source[k].Failure? then source[k].error else EMPTY_CHUNK)
  {
    if k > 0 {
      FailsExactly(source[1..], k - 1);
      assert source[..k] == [source[0]] + source[1..][..k - 1];
      BytesAfter(source[0], source[1..][..k - 1]);
    }
  }

  lemma {:induction false} BytesAfter(first: SourceItem, items: seq<SourceItem>)
    ensures BytesOf([first] + items) == (if first.Chunk? then first.bytes else []) + BytesOf(items)
    decreases |items|
  {
    var all := [first] + items;
    if items == [] {
      assert all[..0] == [] && BytesOf([]) == [];
      assert all == [first];
    } else {
      assert all[..|all| - 1] == [first] + items[..|items| - 1];
      BytesAfter(first, items[..|items| - 1]);
    }
  }

  // ----- the frames of a source -----

  function Min(a: nat, b: nat): nat {
    if a < b then a else b
  }

  /** The frames still to come, and how the framing ends: the bytes counted by then, and what went wrong. */
  datatype Framing = Framing(frames: seq<Frame>, sent: nat, error: Option<string>)

  function After(frame: Frame, rest: Framing): Framing {
    rest.(frames := [frame] + rest.frames)
  }

  /** From the middle of a chunk, of which `pending` is left, or between chunks. */
  function Framed(pending: Bytes, source: Source, sent: nat): Framing
    decreases |source|, |pending|
  {
    if pending != [] then
      var size := Min(|pending|, CHUNK_MAX);
      if sent + size > U64_MAX then Framing([], sent, Some(OVERFLOW))
      else After(Data(pending[..size]), Framed(pending[size..], source, sent + size))
    else if source == [] then Framing([Commit], sent, None)
    else if source[0].Failure? then Framing([], sent, Some(source[0].error))
    else if source[0].bytes == [] then Framing([], sent, Some(EMPTY_CHUNK))
    else Framed(source[0].bytes, source[1..], sent)
  }

  function Request(header: WriteHeader, source: Source): Framing {
    After(Header(header), Framed([], source, 0))
  }

  /** The bytes the data frames carry, in order. */
  function Carried(frames: seq<Frame>): Bytes {
    if frames == [] then [] else (if frames[0].Data? then frames[0].data else []) + Carried(frames[1..])
  }

  /** Every data frame carries at least a byte and at most the limit. */
  ghost predicate InLimits(frames: seq<Frame>) {
    forall k :: 0 <= k < |frames| && frames[k].Data? ==> 0 < |frames[k].data| <= CHUNK_MAX
  }

  /** Data frames, then a commit as the last frame or not at all. */
  ghost predicate InOrder(frames: seq<Frame>, committed: bool) {
    && (committed ==> frames != [])
    && forall k :: 0 <= k < |frames| ==> if committed && k == |frames| - 1 then frames[k].Commit? else frames[k].Data?
  }

  /**
    The frames of what is left: within the limits and in order; they carry a prefix of the bytes left, all of them unless
    the count overflows; and they end in a commit exactly when the source ends without failing and the count does not
    overflow.
  */
  ghost predicate Faithful(f: Framing, bytes: Bytes, failure: Option<string>, sent: nat) {
    && InLimits(f.frames) && InOrder(f.frames, f.error.None?)
    && Carried(f.frames) <= bytes
    && f.sent == sent + |Carried(f.frames)| <= U64_MAX
    && (if sent + |bytes| <= U64_MAX then Carried(f.frames) == bytes && f.error == failure
        else f.error == Some(OVERFLOW))
  }

  lemma {:induction false} FramedFaithful(pending: Bytes, source: Source, sent: nat)
    requires sent <= U64_MAX
    ensures Faithful(Framed(pending, source, sent), pending + Before(source), FailureOf(source), sent)
    decreases |source|, |pending|
  {
    if pending != [] {
      var size := Min(|pending|, CHUNK_MAX);
      if sent + size <= U64_MAX {
        FramedFaithful(pending[size..], source, sent + size);
        var rest := Framed(pending[size..], source, sent + size);
        assert Framed(pending, source, sent) == After(Data(pending[..size]), rest);
        hide Framed, Faithful, Before, FailureOf, After;
        assert pending + Before(source) == pending[..size] + (pending[size..] + Before(source));
        AfterFaithful(pending[..size], rest, pending[size..] + Before(source), FailureOf(source), sent);
      }
    } else if source != [] && source[0].Chunk? && source[0].bytes != [] {
      FramedFaithful(source[0].bytes, source[1..], sent);
      assert [] + Before(source) == source[0].bytes + Before(source[1..]);
    } else {
      assert [] + Before(source) == [];
      assert Carried([Commit]) == [];
    }
  }

  lemma AfterFaithful(data: Bytes, rest: Framing, bytes: Bytes, failure: Option<string>, sent: nat)
    requires 0 < |data| <= CHUNK_MAX && sent + |data| <= U64_MAX && Faithful(rest, bytes, failure, sent + |data|)
    ensures Faithful(After(Data(data), rest), data + bytes, failure, sent)
  {
    var frames := [Data(data)] + rest.frames;
    assert frames[1..] == rest.frames;
    assert Carried(frames) == data + Carried(rest.frames);
  }

  /**
    For every source: one header, then the frames of its bytes, then a commit exactly when it ended with no failure and
    no overflow; and the count is of the bytes framed.
  */
  lemma RequestFaithful(header: WriteHeader, source: Source)
    ensures var f := Request(header, source);
            && f.frames != [] && f.frames[0] == Header(header)
            && Faithful(f.(frames := f.frames[1..]), Before(source), FailureOf(source), 0)
            && (f.frames[|f.frames| - 1].Commit? <==> FailureOf(source).None? && |Before(source)| <= U64_MAX)
  {
    FramedFaithful([], source, 0);
    assert [] + Before(source) == Before(source);
    var f := Request(header, source);
    assert f.frames[1..] == Framed([], source, 0).frames;
  }

  // ----- the stream itself -----

  datatype RequestState = AtHeader(header: WriteHeader) | AtData(pending: Option<Bytes>) | Done

  class RequestStream {
    var state: RequestState
    /** What the source has still to give. */
    var source: Source
    var bytesSent: nat
    var sourceError: Option<string>

    ghost predicate Valid()
      reads this
    {
      && bytesSent <= U64_MAX
      && (state.AtData? && state.pending.Some? ==> state.pending.value != [])
      && (!state.Done? ==> sourceError.None?)
      && (state.AtHeader? ==> bytesSent == 0)
    }

    /** The frames still to come, with what the stream will have counted and found wrong by their end. */
    function Ahead(): Framing
      reads this
    {
      match state
      case AtHeader(header) => Request(header, source)
      case AtData(None) => Framed([], source, bytesSent)
      case AtData(Some(pending)) => Framed(pending, source, bytesSent)
      case Done => Framing([], bytesSent, sourceError)
    }

    constructor (header: WriteHeader, source: Source)
      ensures Valid() && Ahead() == Request(header, source) && bytesSent == 0
    {
      state, this.source, bytesSent, sourceError := AtHeader(header), source, 0, None;
    }

    /** The next frame; or none, for good, once the stream has ended. */
    method Next() returns (frame: Option<Frame>)
      requires Valid()
      modifies this
      ensures Valid()
      ensures frame.Some? ==> old(Ahead()) == After(frame.value, Ahead())
      ensures frame.None? ==> old(Ahead()) == Ahead() == Framing([], bytesSent, sourceError)
      ensures bytesSent == old(bytesSent) + if frame.Some? && frame.value.Data? then |frame.value.data| else 0
    {
      match state {
        case AtHeader(header) =>
          state := AtData(None);
          return Some(Header(header));
        case Done =>
          return None;
        case AtData(_) =>
      }
      var pending := state.pending;
      if pending.None? {
        if source == [] {
          state := Done;
          return Some(Commit);
        }
        var item := source[0];
        source := source[1..];
        match item {
          case Failure(error) =>
            sourceError, state := Some(error), Done;
            return None;
          case Chunk(bytes) =>
            if bytes == [] {
              sourceError, state := Some(EMPTY_CHUNK), Done;
              return None;
            }
            pending := Some(bytes);
        }
      }
      var bytes := pending.value;
      assert old(Ahead()) == Framed(bytes, source, bytesSent);
      var size := Min(|bytes|, CHUNK_MAX);
      var chunk, left := bytes[..size], bytes[size..];
      if bytesSent + |chunk| > U64_MAX {
        sourceError, state := Some(OVERFLOW), Done;
        return None;
      }
      bytesSent := bytesSent + |chunk|;
      state := AtData(if left == [] then None else Some(left));
      return Some(Data(chunk));
    }
  }

  /** The whole stream, frame by frame: finitely many, and those of the request. */
  method Collect(header: WriteHeader, source: Source) returns (frames: seq<Frame>, sent: nat, error: Option<string>)
    ensures Framing(frames, sent, error) == Request(header, source)
  {
    var stream := new RequestStream(header, source);
    frames := [];
    while true
      invariant stream.Valid()
      invariant SoFar(Request(header, source), frames, stream.Ahead())
      decreases |stream.Ahead().frames|
    {
      hide Framed, Request, Before, FailureOf;
      var frame := stream.Next();
      if frame.None? {
        assert frames + [] == frames;
        return frames, stream.bytesSent, stream.sourceError;
      }
      OneFurther(Request(header, source), frames, frame.value, stream.Ahead());
      frames := frames + [frame.value];
    }
  }

  /** The frames pulled so far and those ahead are the whole. */
  ghost predicate SoFar(whole: Framing, frames: seq<Frame>, ahead: Framing) {
    whole == ahead.(frames := frames + ahead.frames)
  }

  lemma OneFurther(whole: Framing, frames: seq<Frame>, frame: Frame, ahead: Framing)
    requires SoFar(whole, frames, After(frame, ahead))
    ensures SoFar(whole, frames + [frame], ahead) && |ahead.frames| < |After(frame, ahead).frames|
  {
    assert frames + ([frame] + ahead.frames) == (frames + [frame]) + ahead.frames;
  }

  // ----- the answer -----

  datatype Response = Response(path: Bytes, bytesWritten: nat)

  const SLASH: byte := 0x2F

  /** A source's failure is reported before anything the server says; then the answer must name an absolute path and count
      what was sent. */
  function Checked(sourceError: Option<string>, response: Result<Response, string>, sent: nat): Result<Response, string> {
    if sourceError.Some? then Err(sourceError.value)
    else if response.Err? then response
    else if response.value.path == [] || response.value.path[0] != SLASH then Err("server returned a non-absolute write path")
    else if response.value.bytesWritten != sent then Err("server reported a different count of written bytes")
    else response
  }

  /** A write that succeeds after its whole request was sent wrote every byte of a source that ended without failing. */
  lemma SuccessIsWhole(header: WriteHeader, source: Source, response: Result<Response, string>)
    ensures var f := Request(header, source);
            Checked(f.error, response, f.sent).Ok? ==>
              && FailureOf(source).None? && Carried(f.frames) == Before(source)
              && response.value.bytesWritten == |Before(source)|
  {
    RequestFaithful(header, source);
    var f := Request(header, source);
    assert Carried(f.frames) == Carried(f.frames[1..]);
  }
}
