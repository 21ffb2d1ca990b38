/** A passive map of the frames in a received byte stream, built recv by recv without keeping any content. */
module StreamMap {
  import opened Options
  import opened Framing

  const MAX_BODY := 16 * 1024 * 1024

  datatype Error = FrameCapacity | InvalidLength | IncompleteAtEof | BindingConflict | SetupConflict

  /** One complete frame: where it starts, its body length, and the count of bytes received when it was complete. */
  datatype Extent = Extent(start: nat, length: nat, complete: nat)

  datatype Parsed = Parsed(frames: seq<Extent>, rest: seq<Byte>, error: Option<Error>)

  // ----- the reference: a parse of the whole stream, frame by frame -----

  /** Frames of s, which begins at byte `base` of the stream after `count` earlier frames. */
  function Parse(s: seq<Byte>, base: nat, count: nat, capacity: nat): Parsed
    decreases |s|
  {
    if s == [] then Parsed([], [], None)
    else if count >= capacity then Parsed([], s, Some(FrameCapacity))
    else if |s| < 4 then Parsed([], s, None)
    else
      var length := BigEndian(s[..4]);
      if !(0 < length <= MAX_BODY) then Parsed([], s, Some(InvalidLength))
      else if |s| < 4 + length then Parsed([], s, None)
      else
        var later := Parse(s[4 + length..], base + 4 + length, count + 1, capacity);
        Parsed([Extent(base, length, base + 4 + length)] + later.frames, later.rest, later.error)
  }

  /** What s parses to once t is appended, given what s alone parsed to. */
  function Continued(p: Parsed, s: seq<Byte>, t: seq<Byte>, base: nat, count: nat, capacity: nat): Parsed
    requires |p.rest| <= |s|
  {
    if p.error.Some? then Parsed(p.frames, p.rest + t, p.error)
    else
      var q := Parse(p.rest + t, base + |s| - |p.rest|, count + |p.frames|, capacity);
      Parsed(p.frames + q.frames, q.rest, q.error)
  }

  lemma {:induction false} RestIsSuffix(s: seq<Byte>, base: nat, count: nat, capacity: nat)
    ensures |Parse(s, base, count, capacity).rest| <= |s|
    decreases |s|
  {
    hide BigEndian;
    if s != [] && count < capacity && |s| >= 4 {
      var length := BigEndian(s[..4]);
      if 0 < length <= MAX_BODY && |s| >= 4 + length {
        RestIsSuffix(s[4 + length..], base + 4 + length, count + 1, capacity);
      }
    }
  }

  lemma {:induction false} NothingComplete(s: seq<Byte>, t: seq<Byte>, base: nat, count: nat, capacity: nat)
    requires Parse(s, base, count, capacity).frames == []
    ensures Parse(s, base, count, capacity).rest == s
    ensures Parse(s + t, base, count, capacity)
         == Continued(Parse(s, base, count, capacity), s, t, base, count, capacity)
  {
    hide Parse, BigEndian;
    RestIsAll(s, base, count, capacity);
    if Parse(s, base, count, capacity).error.Some? {
      ErrorStays(s, t, base, count, capacity);
    } else {
      var q := Parse(s + t, base, count, capacity);
      assert [] + q.frames == q.frames;
    }
  }

  lemma {:induction false} RestIsAll(s: seq<Byte>, base: nat, count: nat, capacity: nat)
    requires Parse(s, base, count, capacity).frames == []
    ensures Parse(s, base, count, capacity).rest == s
  {
    hide BigEndian;
  }

  lemma {:induction false} ErrorStays(s: seq<Byte>, t: seq<Byte>, base: nat, count: nat, capacity: nat)
    requires var p := Parse(s, base, count, capacity); p.frames == [] && p.error.Some?
    ensures Parse(s + t, base, count, capacity) == Parsed([], s + t, Parse(s, base, count, capacity).error)
  {
    hide BigEndian;
    if |s| >= 4 {
      assert (s + t)[..4] == s[..4];
    }
  }

  /** More bytes never change what was parsed; they continue the trailing partial frame. */
  lemma {:induction false} ParseExtends(s: seq<Byte>, t: seq<Byte>, base: nat, count: nat, capacity: nat)
    ensures var p := Parse(s, base, count, capacity);
      && |p.rest| <= |s|
      && Parse(s + t, base, count, capacity) == Continued(p, s, t, base, count, capacity)
    decreases |s|
  {
    hide BigEndian;
    RestIsSuffix(s, base, count, capacity);
    var p := Parse(s, base, count, capacity);
    if p.frames == [] {
      NothingComplete(s, t, base, count, capacity);
    } else {
      HeadStarts(s, base, count, capacity);
      var length := BigEndian(s[..4]);
      ParseExtends(s[4 + length..], t, base + 4 + length, count + 1, capacity);
      FirstFrame(s, t, base, count, capacity, length);
    }
  }

  /** The first frame of s is complete. */
  ghost predicate Starts(s: seq<Byte>, length: nat) {
    |s| >= 4 + length && length == BigEndian(s[..4]) && 0 < length <= MAX_BODY
  }

  lemma {:induction false} ParseHead(s: seq<Byte>, base: nat, count: nat, capacity: nat, length: nat)
    requires count < capacity && Starts(s, length)
    ensures var later := Parse(s[4 + length..], base + 4 + length, count + 1, capacity);
      Parse(s, base, count, capacity)
      == Parsed([Extent(base, length, base + 4 + length)] + later.frames, later.rest, later.error)
  {
    hide BigEndian;
  }

  lemma {:induction false} HeadStarts(s: seq<Byte>, base: nat, count: nat, capacity: nat)
    requires Parse(s, base, count, capacity).frames != []
    ensures count < capacity && |s| >= 4 && Starts(s, BigEndian(s[..4]))
  {
    hide BigEndian;
  }

  lemma {:induction false} FirstFrame(s: seq<Byte>, t: seq<Byte>, base: nat, count: nat, capacity: nat, length: nat)
    requires count < capacity && Starts(s, length)
    requires var tail := s[4 + length..];
      var later := Parse(tail, base + 4 + length, count + 1, capacity);
      && |later.rest| <= |tail|
      && Parse(tail + t, base + 4 + length, count + 1, capacity)
         == Continued(later, tail, t, base + 4 + length, count + 1, capacity)
    requires |Parse(s, base, count, capacity).rest| <= |s|
    ensures Parse(s + t, base, count, capacity)
         == Continued(Parse(s, base, count, capacity), s, t, base, count, capacity)
  {
    hide BigEndian, Parse;
    var tail := s[4 + length..];
    assert (s + t)[..4] == s[..4] && (s + t)[4 + length..] == tail + t;
    ParseHead(s, base, count, capacity, length);
    ParseHead(s + t, base, count, capacity, length);
    var later := Parse(tail, base + 4 + length, count + 1, capacity);
    var first := [Extent(base, length, base + 4 + length)];
    var p := Parse(s, base, count, capacity);
    if p.error.None? {
      var q := Parse(p.rest + t, base + |s| - |p.rest|, count + |p.frames|, capacity);
      assert first + (later.frames + q.frames) == p.frames + q.frames;
    }
  }

  /** Frame k of a parse: where the previous one ended, and as long as its own header says. */
  ghost predicate Tile(s: seq<Byte>, base: nat, frames: seq<Extent>, k: nat)
    requires k < |frames|
  {
    var f := frames[k];
    && f.complete == f.start + 4 + f.length && 0 < f.length <= MAX_BODY
    && f.start == (if k == 0 then base else frames[k - 1].complete)
    && base <= f.start && f.complete <= base + |s|
    && BigEndian(s[f.start - base..f.start - base + 4]) == f.length
  }

  /** The frames tile the bytes from the start of the stream to the trailing partial frame, with no gap. */
  lemma {:induction false} FramesTile(s: seq<Byte>, base: nat, count: nat, capacity: nat, k: nat)
    requires k < |Parse(s, base, count, capacity).frames|
    ensures var p := Parse(s, base, count, capacity);
      && Tile(s, base, p.frames, k)
      && (k + 1 == |p.frames| ==> p.frames[k].complete + |p.rest| == base + |s|)
    decreases |s|
  {
    hide BigEndian, Parse;
    HeadStarts(s, base, count, capacity);
    var length := BigEndian(s[..4]);
    var tail := s[4 + length..];
    ParseHead(s, base, count, capacity, length);
    var p, later := Parse(s, base, count, capacity), Parse(tail, base + 4 + length, count + 1, capacity);
    if k > 0 {
      FramesTile(tail, base + 4 + length, count + 1, capacity, k - 1);
      var at := p.frames[k].start - base;
      assert s[at..at + 4] == tail[at - 4 - length..at - length];
    } else {
      assert s[0..4] == s[..4];
      if |p.frames| == 1 {
        NothingComplete(tail, [], base + 4 + length, count + 1, capacity);
      }
    }
  }

  function Join(bodies: seq<seq<Byte>>): seq<Byte>
    requires forall i :: 0 <= i < |bodies| ==> |bodies[i]| <= MAX_BODY
  {
    if bodies == [] then [] else Frame(bodies[0]) + Join(bodies[1..])
  }

  /** Well-formed frames, as many as there is room for, are recognised exactly. */
  lemma {:induction false} FramesRecognised(bodies: seq<seq<Byte>>, base: nat, count: nat, capacity: nat)
    requires forall i :: 0 <= i < |bodies| ==> 0 < |bodies[i]| <= MAX_BODY
    requires count + |bodies| <= capacity
    ensures var p := Parse(Join(bodies), base, count, capacity);
      && |p.frames| == |bodies| && p.rest == [] && p.error == None
      && forall i :: 0 <= i < |bodies| ==> p.frames[i].length == |bodies[i]|
    decreases |bodies|
  {
    NothingToParse(base, count, capacity);
    hide Parse, Frame, BigEndian;
    if bodies != [] {
      var body, rest := bodies[0], Join(bodies[1..]);
      FramesRecognised(bodies[1..], base + 4 + |body|, count + 1, capacity);
      FrameIsRead(body, rest);
      ParseHead(Frame(body) + rest, base, count, capacity, |body|);
      var later := Parse(rest, base + 4 + |body|, count + 1, capacity).frames;
      var all := Parse(Join(bodies), base, count, capacity).frames;
      forall i | 0 <= i < |bodies|
        ensures all[i].length == |bodies[i]|
      {
        assert i > 0 ==> all[i] == later[i - 1];
      }
    }
  }

  lemma {:induction false} NothingToParse(base: nat, count: nat, capacity: nat)
    ensures Parse([], base, count, capacity) == Parsed([], [], None)
  {
  }

  // ----- one more byte, or one more piece of a body -----

  lemma {:induction false} HeaderByte(rest: seq<Byte>, b: Byte, base: nat, count: nat, capacity: nat)
    requires count < capacity && |rest| < 4
    ensures var r := rest + [b];
      Parse(r, base, count, capacity) ==
        Parsed([], r, if |r| == 4 && !(0 < BigEndian(r) <= MAX_BODY) then Some(InvalidLength) else None)
  {
    hide BigEndian;
    var r := rest + [b];
    if |r| == 4 {
      assert r[..4] == r;
    }
  }

  lemma {:induction false} BodyPiece(rest: seq<Byte>, piece: seq<Byte>, base: nat, count: nat, capacity: nat)
    requires count < capacity && |rest| >= 4
    requires var length := BigEndian(rest[..4]); 0 < length <= MAX_BODY && |rest| + |piece| <= 4 + length
    ensures var r, length := rest + piece, BigEndian(rest[..4]);
      Parse(r, base, count, capacity) ==
        if |r| < 4 + length then Parsed([], r, None)
        else Parsed([Extent(base, length, base + 4 + length)], [], None)
  {
    hide BigEndian;
    var r, length := rest + piece, BigEndian(rest[..4]);
    assert r[..4] == rest[..4];
    if |r| == 4 + length {
      assert r[4 + length..] == [];
      ParseHead(r, base, count, capacity, length);
    }
  }

  // ----- the receiving socket -----

  /** A recorded row; length and completion are -1 until the frame is complete, the identity until it is validated. */
  datatype Row = Row(index: int, start: int, length: int, complete: int, step: int, sequence: int, operation: int)

  /** Where the recorder stands inside a trailing partial frame. */
  datatype Cursor = Cursor(header: nat, headerBytes: nat, remaining: Option<nat>)

  function CursorOf(rest: seq<Byte>): Cursor {
    if |rest| < 4 then Cursor(BigEndian(rest), |rest|, None)
    else
      var length := BigEndian(rest[..4]);
      Cursor(length, 4, Some(if 0 < length <= MAX_BODY && |rest| <= 4 + length then 4 + length - |rest| else length))
  }

  predicate Complete(row: Row, i: int, f: Extent) {
    row.index == i && row.start == f.start && row.length == f.length && row.complete == f.complete
  }

  /** The errors that do not come from the bytes of a frame. */
  predicate OutsideParse(e: Error) {
    e in {IncompleteAtEof, BindingConflict, SetupConflict}
  }

  const SETUP := 1
  const PERMIT := 2

  class PartyReceiveSocket {
    const capacity: nat
    const buffer: array<Row>
    var count: nat
    var error: Option<Error>
    var received: nat
    var active: Option<nat>
    var cursor: Cursor
    var checkpoint: Option<nat>
    ghost var stream: seq<Byte>
    ghost var seen: seq<Byte>

    ghost predicate Records(frames: seq<Extent>)
      reads buffer
    {
      |frames| <= buffer.Length && forall i :: 0 <= i < |frames| ==> Complete(buffer[i], i, frames[i])
    }

    /** The recorder's state after the bytes `seen`: exactly what the parse of those bytes says. */
    ghost predicate Matches(p: Parsed)
      reads `count, `active, `cursor, `seen, buffer
    {
      var n := |p.frames|;
      && buffer.Length == capacity && n <= capacity
      && Records(p.frames)
      && if p.rest == [] || p.error == Some(FrameCapacity) then
           active == None && count == n && cursor == Cursor(0, 0, None)
         else
           && n < capacity && active == Some(n) && count == n + 1 && |p.rest| <= |seen|
           && buffer[n].index == n && buffer[n].start == |seen| - |p.rest|
           && buffer[n].length == buffer[n].complete == -1
           && buffer[n].step == buffer[n].sequence == -1 && buffer[n].operation == 0
           && cursor == CursorOf(if p.error.Some? && |p.rest| >= 4 then p.rest[..4] else p.rest)
    }

    ghost predicate Valid()
      reads this, buffer
    {
      && received == |stream| && seen <= stream
      && Matches(Parsing())
      && (error.None? ==> seen == stream)
      && (!(error.Some? && OutsideParse(error.value)) ==> error == Parsing().error)
    }

    constructor (capacity: nat)
      ensures Valid() && stream == [] && error == None && this.capacity == capacity && fresh(buffer)
      ensures checkpoint == None
    {
      this.capacity := capacity;
      buffer := new Row[capacity](_ => Row(-1, -1, -1, -1, -1, -1, 0));
      count, error, received, active, cursor, checkpoint := 0, None, 0, None, Cursor(0, 0, None), None;
      stream, seen := [], [];
    }

    ghost function Parsing(): Parsed
      reads `seen
    {
      Parse(seen, 0, 0, capacity)
    }

    ghost predicate Recording()
      reads this, buffer
    {
      error.None? && Matches(Parsing()) && Parsing().error.None?
    }

    /** One byte of a header; the first one opens a row, if there is room. */
    method TakeHeaderByte(b: Byte, start: nat)
      requires Recording() && cursor.remaining.None? && start == |seen|
      modifies `active, `count, `cursor, `error, `seen, buffer
      ensures seen == old(seen) + [b] && Matches(Parsing()) && error == Parsing().error
    {
      EmptyCursor();
      hide Parse, CursorOf, BigEndian;
      RestIsSuffix(seen, 0, 0, capacity);
      AfterHeaderByte(seen, b, capacity);
      seen := seen + [b];
      if active.None? {
        if count >= capacity {
          error := Some(FrameCapacity);
          return;
        }
        active := Some(count);
        buffer[count] := Row(count, start, -1, -1, -1, -1, 0);
        count := count + 1;
      }
      var header, bytes := cursor.header * 256 + b, cursor.headerBytes + 1;
      cursor := Cursor(header, bytes, if bytes == 4 then Some(header) else None);
      if bytes == 4 && !(0 < header <= MAX_BODY) {
        error := Some(InvalidLength);
      }
    }

    /** A piece of a body, skipped without being looked at; the last one completes the row. */
    method TakeBody(piece: seq<Byte>, end: nat)
      requires Recording() && cursor.remaining.Some? && 0 < |piece| <= cursor.remaining.value
      requires end == |seen| + |piece|
      modifies `active, `cursor, `seen, buffer
      ensures seen == old(seen) + piece && Matches(Parsing()) && error == Parsing().error
    {
      hide Parse, CursorOf, BigEndian;
      RestIsSuffix(seen, 0, 0, capacity);
      AfterBodyPiece(seen, piece, capacity);
      seen := seen + piece;
      var left := cursor.remaining.value - |piece|;
      cursor := cursor.(remaining := Some(left));
      if left == 0 {
        var row := active.value;
        buffer[row] := buffer[row].(length := cursor.header, complete := end);
        active := None;
        cursor := Cursor(0, 0, None);
      }
    }

    lemma {:induction false} RemainingIsPositive()
      requires Recording()
      ensures cursor.remaining.Some? ==> cursor.remaining.value > 0
    {
      PartialIsBounded(seen, 0, 0, capacity);
      hide Parse, BigEndian;
    }

    /** Parses the new bytes; `before` is the stream without them. */
    method Scan(data: seq<Byte>, base: nat, ghost before: seq<Byte>)
      requires Recording() && seen == before && base == |before|
      modifies `active, `count, `cursor, `error, `seen, buffer
      ensures Matches(Parsing()) && error == Parsing().error && seen <= before + data
      ensures error.None? ==> seen == before + data
    {
      hide Parse, CursorOf, BigEndian, Matches;
      var offset := 0;
      while offset < |data| && error.None?
        invariant 0 <= offset <= |data| && base == |before|
        invariant Matches(Parsing()) && error == Parsing().error
        invariant seen <= before + data[..offset] && (error.None? ==> seen == before + data[..offset])
      {
        var from := offset;
        if cursor.remaining.None? {
          TakeHeaderByte(data[offset], base + offset);
          offset := offset + 1;
        } else {
          var n := if cursor.remaining.value < |data| - offset then cursor.remaining.value else |data| - offset;
          RemainingIsPositive();
          TakeBody(data[offset..offset + n], base + offset + n);
          offset := offset + n;
        }
        assert data[..offset] == data[..from] + data[from..offset];
      }
      assert data[..offset] <= data;
    }

    /** One recv: whatever way the stream is cut, the rows and the cursor are those of a parse of the whole. */
    method Recv(data: seq<Byte>)
      requires Valid()
      modifies this, buffer
      ensures Valid() && stream == old(stream) + data
      ensures old(error).Some? ==> error == old(error)
      ensures error == Some(IncompleteAtEof) ==>
        old(error) == Some(IncompleteAtEof) || (data == [] && old(active).Some? && old(error).None?)
      ensures data == [] && old(error).None? && old(active).Some? ==> error == Some(IncompleteAtEof)
      ensures error in {Some(BindingConflict), Some(SetupConflict)} ==> old(error) == error
      ensures unchanged(`checkpoint)
    {
      hide Parse, CursorOf, BigEndian, Matches;
      if data == [] {
        assert stream + data == stream;
        if active.Some? && error.None? {
          error := Some(IncompleteAtEof);
        }
        return;
      }
      var base := received;
      received := received + |data|;
      if error.None? {
        Scan(data, base, stream);
        ParseErrors(seen, 0, 0, capacity);
      }
      stream := stream + data;
    }

    /** The last frame ends the stream exactly and carries no identity yet, and the identity is a possible one. */
    predicate Bindable(step: int, operation: int)
      reads `active, `count, `received, buffer
    {
      && active.None? && 0 < count <= buffer.Length && -1 <= step < 2000 && operation in {SETUP, PERMIT}
      && buffer[count - 1].operation == 0 && buffer[count - 1].complete == received
    }

    predicate FirstSetup(step: int, sequence: int)
      reads `checkpoint
    {
      step == -1 && sequence == 2 && checkpoint.None?
    }

    /** A setup (1) or a permit (2) may be bound to a last frame that ends the stream and has no identity yet. */
    ghost predicate MayBind(step: int, operation: int)
      reads this, buffer
    {
      && active.None? && 0 < count <= buffer.Length && -1 <= step < 2000 && (operation == 1 || operation == 2)
      && buffer[count - 1].operation == 0 && buffer[count - 1].complete == received
    }

    /** Binds the public identity of a validated request to the last frame. A setup request also sets the checkpoint,
        once; one that may not do so has its row written all the same. */
    method Validate(step: int, sequence: int, operation: int)
      requires Valid()
      modifies `error, `checkpoint, buffer
      ensures Valid()
      ensures forall i :: 0 <= i < capacity ==>
        buffer[i] == if old(MayBind(step, operation)) && i == count - 1
                     then old(buffer[i]).(step := step, sequence := sequence, operation := operation)
                     else old(buffer[i])
      ensures var bound := old(MayBind(step, operation));
        var late := operation == 1 && !(step == -1 && sequence == 2 && old(checkpoint).None?);
        && error == (if old(error).Some? then old(error)
                     else if !bound then Some(BindingConflict)
                     else if late then Some(SetupConflict) else None)
        && checkpoint == (if bound && operation == 1 && !late then Some(received) else old(checkpoint))
    {
      hide Parse, CursorOf, BigEndian;
      ParseErrors(seen, 0, 0, capacity);
      if active.Some? || count == 0 || !(-1 <= step < 2000) || operation !in {SETUP, PERMIT} {
        error := if error.Some? then error else Some(BindingConflict);
        return;
      }
      var row := buffer[count - 1];
      if row.operation != 0 || row.complete != received {
        error := if error.Some? then error else Some(BindingConflict);
        return;
      }
      buffer[count - 1] := row.(step := step, sequence := sequence, operation := operation);
      if operation == SETUP {
        if !FirstSetup(step, sequence) {
          error := if error.Some? then error else Some(SetupConflict);
          return;
        }
        checkpoint := Some(received);
      }
    }

    /** The state is a function of the stream alone. */
    lemma {:induction false} StateIsParse()
      requires Valid() && !(error.Some? && OutsideParse(error.value))
      ensures var p := Parse(stream, 0, 0, capacity);
        && error == p.error
        && Records(p.frames)
        && (error.None? ==> Matches(p))
    {
      var later := stream[|seen|..];
      assert stream == seen + later;
      ParseExtends(seen, later, 0, 0, capacity);
      hide Parse, BigEndian, CursorOf;
    }
  }

  function Flatten(chunks: seq<seq<Byte>>): seq<Byte> {
    if chunks == [] then [] else Flatten(chunks[..|chunks| - 1]) + chunks[|chunks| - 1]
  }

  /** Chunk independence: any way of cutting a stream into recv results records the parse of the whole stream. */
  method ReceiveAll(chunks: seq<seq<Byte>>, capacity: nat) returns (socket: PartyReceiveSocket)
    requires forall i :: 0 <= i < |chunks| ==> chunks[i] != []
    ensures socket.Valid() && socket.stream == Flatten(chunks) && socket.received == |Flatten(chunks)|
    ensures socket.capacity == capacity
    ensures var p := Parse(Flatten(chunks), 0, 0, capacity);
      && socket.error == p.error
      && socket.Records(p.frames)
      && (socket.error.None? ==> socket.Matches(p))
  {
    hide Parse;
    socket := new PartyReceiveSocket(capacity);
    assert chunks[..0] == [];
    for k := 0 to |chunks|
      invariant socket.Valid() && socket.stream == Flatten(chunks[..k]) && socket.capacity == capacity
      invariant fresh(socket) && fresh(socket.buffer)
      invariant !(socket.error.Some? && OutsideParse(socket.error.value))
    {
      assert chunks[..k + 1][..k] == chunks[..k];
      socket.Recv(chunks[k]);
    }
    assert chunks[..|chunks|] == chunks;
    socket.StateIsParse();
  }

  lemma {:induction false} EmptyCursor()
    ensures CursorOf([]) == Cursor(0, 0, None)
  {
  }

  /** The state after one more header byte, said through the parse alone. */
  lemma {:induction false} AfterHeaderByte(s: seq<Byte>, b: Byte, capacity: nat)
    requires var p := Parse(s, 0, 0, capacity); p.error.None? && CursorOf(p.rest).remaining.None?
    ensures var p, q := Parse(s, 0, 0, capacity), Parse(s + [b], 0, 0, capacity);
      var c := CursorOf(p.rest);
      var header, bytes := c.header * 256 + b, c.headerBytes + 1;
      && q.frames == p.frames && q.rest == p.rest + [b]
      && (p.rest != [] ==> |p.frames| < capacity)
      && (|p.frames| >= capacity ==> q.error == Some(FrameCapacity))
      && (|p.frames| < capacity ==>
            && q.error == (if bytes == 4 && !(0 < header <= MAX_BODY) then Some(InvalidLength) else None)
            && CursorOf(q.rest) == Cursor(header, bytes, if bytes == 4 then Some(header) else None)
            && (|q.rest| >= 4 ==> q.rest[..4] == q.rest))
      && (p.rest == [] ==> c == Cursor(0, 0, None))
  {
    var p := Parse(s, 0, 0, capacity);
    assert |p.rest| < 4;
    PartialIsBounded(s, 0, 0, capacity);
    ParseExtends(s, [b], 0, 0, capacity);
    BigEndianAppend(p.rest, b);
    var r := p.rest + [b];
    if |r| == 4 {
      assert r[..4] == r;
    }
    if |p.frames| < capacity {
      HeaderByte(p.rest, b, |s| - |p.rest|, |p.frames|, capacity);
    } else {
      assert p.rest == [];
    }
    hide BigEndian;
  }

  lemma {:induction false} AfterBodyPiece(s: seq<Byte>, piece: seq<Byte>, capacity: nat)
    requires var p := Parse(s, 0, 0, capacity);
      var c := CursorOf(p.rest);
      p.error.None? && c.remaining.Some? && 0 < |piece| <= c.remaining.value
    ensures var p, q := Parse(s, 0, 0, capacity), Parse(s + piece, 0, 0, capacity);
      var c := CursorOf(p.rest);
      && p.rest != [] && q.error.None? && |p.rest| <= |s|
      && (|piece| < c.remaining.value ==>
            && q.frames == p.frames && q.rest == p.rest + piece
            && CursorOf(q.rest) == c.(remaining := Some(c.remaining.value - |piece|)))
      && (|piece| == c.remaining.value ==>
            && q.rest == []
            && q.frames == p.frames + [Extent(|s| - |p.rest|, c.header, |s| + |piece|)])
  {
    var p := Parse(s, 0, 0, capacity);
    hide BigEndian;
    PartialIsBounded(s, 0, 0, capacity);
    ParseExtends(s, piece, 0, 0, capacity);
    BodyPiece(p.rest, piece, |s| - |p.rest|, |p.frames|, capacity);
    hide Parse;
    assert (p.rest + piece)[..4] == p.rest[..4];
  }

  /** A first header is refused exactly when it announces nothing or more than sixteen mebibytes. */
  lemma {:induction false} FirstHeader(s: seq<Byte>, base: nat, count: nat, capacity: nat)
    requires |s| >= 4 && count < capacity
    ensures !(0 < BigEndian(s[..4]) <= 16777216) <==>
      Parse(s, base, count, capacity) == Parsed([], s, Some(InvalidLength))
  {
    hide BigEndian;
  }

  lemma {:induction false} ParseErrors(s: seq<Byte>, base: nat, count: nat, capacity: nat)
    ensures Parse(s, base, count, capacity).error in {None, Some(FrameCapacity), Some(InvalidLength)}
    decreases |s|
  {
    hide BigEndian;
    if Parse(s, base, count, capacity).frames != [] {
      HeadStarts(s, base, count, capacity);
      var length := BigEndian(s[..4]);
      ParseHead(s, base, count, capacity, length);
      ParseErrors(s[4 + length..], base + 4 + length, count + 1, capacity);
    }
  }

  /** The trailing partial frame of an error-free parse is shorter than its header says. */
  lemma {:induction false} PartialIsBounded(s: seq<Byte>, base: nat, count: nat, capacity: nat)
    requires Parse(s, base, count, capacity).error.None?
    ensures var rest := Parse(s, base, count, capacity).rest;
      |rest| >= 4 ==> 0 < BigEndian(rest[..4]) <= MAX_BODY && |rest| < 4 + BigEndian(rest[..4])
    ensures Parse(s, base, count, capacity).rest != [] ==> count + |Parse(s, base, count, capacity).frames| < capacity
    decreases |s|
  {
    hide BigEndian;
    if Parse(s, base, count, capacity).frames != [] {
      HeadStarts(s, base, count, capacity);
      var length := BigEndian(s[..4]);
      ParseHead(s, base, count, capacity, length);
      PartialIsBounded(s[4 + length..], base + 4 + length, count + 1, capacity);
    }
  }
}
