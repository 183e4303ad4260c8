/** Newline-delimited message framing over a buffered byte stream (`src/control.rs`).

    JSON itself is abstract: a `Codec` is any encoder with a decoder for whole lines. */
module ControlChannel {
  import opened Wrappers
  import opened Utf8

  const NEWLINE: Byte := 10
  const MAX_MESSAGE_SIZE: nat := 65536

  /** `decodeLine` stands for trimming the line's trailing whitespace and parsing the rest. */
  datatype Codec<!M> = Codec(encode: M -> seq<Byte>, decodeLine: seq<Byte> -> Option<M>)

  ghost predicate Lawful<M(!new)>(codec: Codec<M>) {
    forall m: M :: NEWLINE !in codec.encode(m) && codec.decodeLine(codec.encode(m) + [NEWLINE]) == Some(m)
  }

  datatype ControlError = InvalidUtf8 | MessageTooLarge(size: nat) | Deserialization | ConnectionClosed

  // ---- The flat specification ---------------------------------------------------

  function NewlineFrom(s: seq<Byte>, i: nat): (n: nat)
    requires i <= |s|
    ensures i <= n <= |s|
    ensures n < |s| ==> s[n] == NEWLINE
    ensures forall j | i <= j < n :: s[j] != NEWLINE
    decreases |s| - i
  {
    if i == |s| || s[i] == NEWLINE then i else NewlineFrom(s, i + 1)
  }

  /** Position of the first newline, or the length of s. */
  function NewlineAt(s: seq<Byte>): (n: nat)
    ensures n <= |s|
    ensures n < |s| ==> s[n] == NEWLINE
    ensures forall j | 0 <= j < n :: s[j] != NEWLINE
  {
    NewlineFrom(s, 0)
  }

  /** The first line with its newline; everything if there is no newline. */
  function FirstLine(s: seq<Byte>): seq<Byte> {
    if NewlineAt(s) < |s| then s[..NewlineAt(s) + 1] else s
  }

  predicate HasNewline(s: seq<Byte>) { NEWLINE in s }

  datatype Outcome<+M> = Message(m: M) | Malformed | TooLarge | Closed

  /** What reading one message from the whole remaining stream should give. */
  function ReadFlat<M>(codec: Codec<M>, s: seq<Byte>): (Outcome<M>, seq<Byte>) {
    var line := FirstLine(s);
    (if |line| > MAX_MESSAGE_SIZE then TooLarge
     else if !HasNewline(s) then Closed
     else match codec.decodeLine(line) case Some(m) => Message(m) case None => Malformed,
     s[|line|..])
  }

  ghost predicate Matches<M>(r: Result<M, ControlError>, line: seq<Byte>, o: Outcome<M>) {
    match o
    case Message(m) => r == Ok(m)
    case Malformed => r == Err(Deserialization)
    case TooLarge => r.Err? && r.error.MessageTooLarge? && MAX_MESSAGE_SIZE < r.error.size <= |line|
    case Closed => r == Err(ConnectionClosed)
  }

  /** Bytes without a newline only lengthen the first line. */
  lemma FirstLineAfter(prefix: seq<Byte>, s: seq<Byte>)
    requires NEWLINE !in prefix
    ensures NewlineAt(prefix + s) == |prefix| + NewlineAt(s)
    ensures FirstLine(prefix + s) == prefix + FirstLine(s)
    ensures HasNewline(prefix + s) <==> HasNewline(s)
  {
    var whole, n := prefix + s, NewlineAt(s);
    if n < |s| { assert whole[|prefix| + n] == NEWLINE; }
    forall j | 0 <= j < |prefix| + n ensures whole[j] != NEWLINE {
      if j >= |prefix| { assert whole[j] == s[j - |prefix|]; }
    }
  }

  lemma NewlineIffBeforeEnd(s: seq<Byte>)
    ensures NewlineAt(s) < |s| <==> HasNewline(s)
  {
  }

  /** Bytes moved from the front of what is left to the end of what is taken. */
  lemma MoveOver(taken: seq<Byte>, left: seq<Byte>, n: nat, whole: seq<Byte>)
    requires n <= |left| && taken + left == whole
    ensures (taken + left[..n]) + left[n..] == whole
  {
    assert left == left[..n] + left[n..];
  }

  // ---- The stream -----------------------------------------------------------------

  function Flatten(chunks: seq<seq<Byte>>): seq<Byte> {
    if chunks == [] then [] else chunks[0] + Flatten(chunks[1..])
  }

  /** A buffered reader over a stream that arrives in chunks of any nonzero size. */
  class ChunkReader {
    var buffer: seq<Byte>
    var arriving: seq<seq<Byte>>

    ghost predicate Valid()
      reads this
    {
      forall i | 0 <= i < |arriving| :: arriving[i] != []
    }

    /** Everything not yet consumed. */
    ghost function Rest(): seq<Byte>
      reads this
    {
      buffer + Flatten(arriving)
    }

    /** How it comes: what is buffered, then chunk by chunk. */
    ghost function Chunks(): seq<seq<Byte>>
      reads this
    {
      if buffer == [] then arriving else [buffer] + arriving
    }

    constructor (chunks: seq<seq<Byte>>)
      requires forall i | 0 <= i < |chunks| :: chunks[i] != []
      ensures Valid() && Rest() == Flatten(chunks) && Chunks() == chunks
    {
      buffer, arriving := [], chunks;
    }

    /** `fill_buf`: what is buffered, waiting for the next chunk only if nothing is. */
    method FillBuf() returns (available: seq<Byte>)
      requires Valid()
      modifies this
      ensures Valid() && available == buffer && Rest() == old(Rest())
      ensures available == [] <==> Rest() == []
      ensures available <= Rest() && Chunks() == old(Chunks())
      ensures if available == [] then Chunks() == [] else Chunks() != [] && Chunks()[0] == available
      ensures |arriving| + (if buffer == [] then 0 else 1) <= |old(arriving)| + (if old(buffer) == [] then 0 else 1)
    {
      if buffer == [] && arriving != [] {
        assert arriving[0] in arriving;
        buffer, arriving := arriving[0], arriving[1..];
      }
      available := buffer;
    }

    method Consume(n: nat)
      requires Valid() && n <= |buffer|
      modifies this`buffer
      ensures Valid() && buffer == old(buffer)[n..] && Rest() == old(Rest())[n..]
      ensures n == |old(buffer)| > 0 ==> Chunks() == old(Chunks())[1..]
    {
      buffer := buffer[n..];
    }

    /** `read_exact`: the next n bytes, or None at the end of the stream. */
    method ReadExact(n: nat) returns (r: Option<seq<Byte>>)
      requires Valid()
      modifies this
      ensures Valid()
      ensures r.Some? <==> n <= |old(Rest())|
      ensures r.Some? ==> r.value == old(Rest())[..n] && Rest() == old(Rest())[n..]
    {
      ghost var whole := Rest();
      var got: seq<Byte> := [];
      while |got| < n
        invariant Valid() && |got| <= n
        invariant got + Rest() == whole
        decreases n - |got|
      {
        var available := FillBuf();
        if available == [] {
          return None;
        }
        var take := if |available| < n - |got| then |available| else n - |got|;
        MoveOver(got, Rest(), take, whole);
        assert Rest()[..take] == available[..take];
        Consume(take);
        got := got + available[..take];
      }
      return Some(got);
    }

    /** Everything up to the end of the stream. */
    method ReadToEnd() returns (r: seq<Byte>)
      requires Valid()
      modifies this
      ensures Valid() && r == old(Rest()) && Rest() == []
    {
      ghost var whole := Rest();
      r := [];
      while true
        invariant Valid() && r + Rest() == whole
        decreases |Rest()|
      {
        var available := FillBuf();
        if available == [] {
          return;
        }
        MoveOver(r, Rest(), |available|, whole);
        assert Rest()[..|available|] == available;
        Consume(|available|);
        r := r + available;
      }
    }
  }

  /** A way of cutting a byte string into nonempty chunks. */
  ghost predicate Cuts(cut: seq<Byte> -> seq<seq<Byte>>) {
    forall s :: Flatten(cut(s)) == s && forall i | 0 <= i < |cut(s)| :: cut(s)[i] != []
  }

  /** The end of the line being read is among the available bytes. */
  lemma LineEnds(line: seq<Byte>, s: seq<Byte>, available: seq<Byte>, whole: seq<Byte>)
    requires line + s == whole && NEWLINE !in line && available <= s && NewlineAt(available) < |available|
    ensures var n := NewlineAt(available);
      FirstLine(whole) == line + available[..n + 1] && HasNewline(whole) && whole[|FirstLine(whole)|..] == s[n + 1..]
  {
    var n := NewlineAt(available);
    var seen, left := line + available[..n], s[n..];
    assert seen + left == whole;
    FirstLineAfter(seen, left);
    assert left[0] == NEWLINE;
    assert FirstLine(left) == [NEWLINE];
  }

  /** The line being read goes on past the available bytes. */
  lemma LineGoesOn(line: seq<Byte>, s: seq<Byte>, available: seq<Byte>, whole: seq<Byte>)
    requires line + s == whole && NEWLINE !in line && available <= s && NewlineAt(available) == |available|
    ensures var left := s[|available|..];
      && NEWLINE !in available && (line + available) + left == whole
      && FirstLine(whole) == line + available + FirstLine(left)
      && (HasNewline(whole) <==> HasNewline(left))
      && whole[|FirstLine(whole)|..] == left[|FirstLine(left)|..]
  {
    var seen, left := line + available, s[|available|..];
    assert s == available + left;
    assert seen + left == whole;
    FirstLineAfter(seen, left);
  }

  /** Discards up to and including the next newline, or everything if there is none. */
  method DrainLine(reader: ChunkReader)
    requires reader.Valid()
    modifies reader
    ensures reader.Valid()
    ensures reader.Rest() == old(reader.Rest())[|FirstLine(old(reader.Rest()))|..]
  {
    assert FirstLine([]) == [];
    hide FirstLine, HasNewline, NewlineAt, Flatten;
    ghost var whole := reader.Rest();
    ghost var dropped: seq<Byte> := [];
    while true
      invariant reader.Valid() && NEWLINE !in dropped && dropped + reader.Rest() == whole
      decreases |reader.Rest()|
    {
      var rest := reader.FillBuf();
      var nl := NewlineAt(rest);
      if nl < |rest| {
        LineEnds(dropped, reader.Rest(), rest, whole);
        reader.Consume(nl + 1);
        return;
      }
      LineGoesOn(dropped, reader.Rest(), rest, whole);
      if rest == [] {
        return;
      }
      reader.Consume(|rest|);
      dropped := dropped + rest;
    }
  }

  ghost predicate IsUtf8Error<M>(r: Result<M, ControlError>) {
    r.Err? && r.error.InvalidUtf8?
  }

  /** The result and the rest of the stream are what the flat specification gives. */
  ghost predicate ReadsAs<M>(codec: Codec<M>, s: seq<Byte>, r: Result<M, ControlError>, rest: seq<Byte>) {
    Matches(r, FirstLine(s), ReadFlat(codec, s).0) && rest == ReadFlat(codec, s).1
  }

  /** How much of the first line lies in the leading chunks whose part of it is UTF-8 by itself. */
  ghost function CleanBytes(chunks: seq<seq<Byte>>): nat {
    if chunks == [] || !ValidUtf8(FirstLine(chunks[0])) then 0
    else if HasNewline(chunks[0]) then |FirstLine(chunks[0])|
    else |chunks[0]| + CleanBytes(chunks[1..])
  }

  ghost predicate IsClean(chunks: seq<seq<Byte>>) { CleanBytes(chunks) == |FirstLine(Flatten(chunks))| }

  /** What the loop of `read_message` comes to. It stops at the first chunk whose part of the line is not
      UTF-8 by itself, having taken what came before it. */
  ghost predicate LineRead(chunks: seq<seq<Byte>>, r: Result<seq<Byte>, ControlError>, rest: seq<Byte>) {
    var whole, line := Flatten(chunks), FirstLine(Flatten(chunks));
    match r
    case Ok(l) => l == line && HasNewline(whole) && IsClean(chunks) && rest == whole[|line|..]
    case Err(ConnectionClosed) => !HasNewline(whole) && |line| <= MAX_MESSAGE_SIZE && IsClean(chunks) && rest == []
    case Err(MessageTooLarge(size)) => MAX_MESSAGE_SIZE < size <= |line| && rest == whole[|line|..]
    case Err(InvalidUtf8) =>
      !IsClean(chunks) && CleanBytes(chunks) <= |whole| && rest == whole[CleanBytes(chunks)..]
    case Err(Deserialization) => false
  }

  /** What the loop has taken, and what is left to it. */
  ghost predicate InLine(chunks: seq<seq<Byte>>, line: seq<Byte>, ahead: seq<seq<Byte>>) {
    && NEWLINE !in line && line + Flatten(ahead) == Flatten(chunks)
    && CleanBytes(chunks) == |line| + CleanBytes(ahead)
    && (forall i | 0 <= i < |ahead| :: ahead[i] != [])
  }

  lemma LineStarts(chunks: seq<seq<Byte>>)
    requires forall i | 0 <= i < |chunks| :: chunks[i] != []
    ensures InLine(chunks, [], chunks)
  {
  }

  lemma LineRefused(chunks: seq<seq<Byte>>, line: seq<Byte>, s: seq<Byte>)
    requires line + s == Flatten(chunks) && CleanBytes(chunks) == |line| < |FirstLine(Flatten(chunks))|
    ensures LineRead(chunks, Err(InvalidUtf8), s)
  {
    hide FirstLine, Flatten;
    assert Flatten(chunks)[|line|..] == s;
  }

  /** The next chunk ends the line. */
  lemma ChunkEndsLine(chunks: seq<seq<Byte>>, line: seq<Byte>, ahead: seq<seq<Byte>>)
    requires InLine(chunks, line, ahead) && ahead != [] && NewlineAt(ahead[0]) < |ahead[0]|
    ensures var (piece, s) := (ahead[0][..NewlineAt(ahead[0]) + 1], Flatten(ahead));
      if ValidUtf8(piece) then LineRead(chunks, Ok(line + piece), s[|piece|..])
      else LineRead(chunks, Err(InvalidUtf8), s)
  {
    hide FirstLine, HasNewline, NewlineAt, ValidUtf8, CleanBytes;
    var c, s, whole := ahead[0], Flatten(ahead), Flatten(chunks);
    CleanUnfolds(ahead, c);
    LineEnds(line, s, c, whole);
    if !ValidUtf8(c[..NewlineAt(c) + 1]) { LineRefused(chunks, line, s); }
  }

  /** The line goes on past the next chunk. */
  lemma ChunkGoesOn(chunks: seq<seq<Byte>>, line: seq<Byte>, ahead: seq<seq<Byte>>)
    requires InLine(chunks, line, ahead) && ahead != [] && NewlineAt(ahead[0]) == |ahead[0]|
    ensures var (c, s, whole) := (ahead[0], Flatten(ahead), Flatten(chunks));
      && |line| + |c| <= |FirstLine(whole)| && whole[|FirstLine(whole)|..] == s[|c|..][|FirstLine(s[|c|..])|..]
      && (if ValidUtf8(c) then InLine(chunks, line + c, ahead[1..]) else LineRead(chunks, Err(InvalidUtf8), s))
  {
    hide LineRead, FirstLine, HasNewline, NewlineAt, ValidUtf8, CleanBytes, Flatten;
    var c, s, whole := ahead[0], Flatten(ahead), Flatten(chunks);
    FlattenFirst(ahead);
    CleanUnfolds(ahead, c);
    LineGoesOn(line, s, c, whole);
    assert |c| > 0;
    if !ValidUtf8(c) { LineRefused(chunks, line, s); }
  }

  lemma FlattenFirst(chunks: seq<seq<Byte>>)
    requires chunks != []
    ensures Flatten(chunks) == chunks[0] + Flatten(chunks[1..])
    ensures Flatten(chunks)[|chunks[0]|..] == Flatten(chunks[1..])
  {
  }

  lemma StreamEnds(chunks: seq<seq<Byte>>, line: seq<Byte>)
    requires InLine(chunks, line, []) && |line| <= MAX_MESSAGE_SIZE
    ensures LineRead(chunks, Err(ConnectionClosed), [])
  {
    NewlineIffBeforeEnd(line);
    assert line + [] == line;
  }

  /** The loop of `read_message`. */
  method ReadLine(reader: ChunkReader) returns (r: Result<seq<Byte>, ControlError>)
    requires reader.Valid()
    modifies reader
    ensures reader.Valid() && LineRead(old(reader.Chunks()), r, reader.Rest())
  {
    hide LineRead, InLine, FirstLine, HasNewline, ValidUtf8, NewlineAt, Flatten, CleanBytes;
    ghost var chunks, ahead := reader.Chunks(), reader.Chunks();
    LineStarts(chunks);
    var line: seq<Byte> := [];
    while true
      invariant reader.Valid() && reader.Chunks() == ahead
      invariant InLine(chunks, line, ahead) && |line| <= MAX_MESSAGE_SIZE
      decreases |ahead|
    {
      var available := reader.FillBuf();
      ChunksAreRest(reader);
      if available == [] {
        StreamEnds(chunks, line);
        return Err(ConnectionClosed);
      }
      var nl := NewlineAt(available);
      if nl < |available| {
        ChunkEndsLine(chunks, line, ahead);
        if !ValidUtf8(available[..nl + 1]) {
          return Err(InvalidUtf8);
        }
        line := line + available[..nl + 1];
        reader.Consume(nl + 1);
        return Ok(line);
      }
      ChunkGoesOn(chunks, line, ahead);
      var size := |line| + |available|;
      if size > MAX_MESSAGE_SIZE {
        // Resynchronise at the next newline so the tail is not read as a message.
        reader.Consume(|available|);
        DrainLine(reader);
        TooLong(chunks, size);
        return Err(MessageTooLarge(size));
      }
      if !ValidUtf8(available) {
        return Err(InvalidUtf8);
      }
      line := line + available;
      reader.Consume(|available|);
      ahead := ahead[1..];
    }
  }

  lemma TooLong(chunks: seq<seq<Byte>>, size: nat)
    requires MAX_MESSAGE_SIZE < size <= |FirstLine(Flatten(chunks))|
    ensures LineRead(chunks, Err(MessageTooLarge(size)), Flatten(chunks)[|FirstLine(Flatten(chunks))|..])
  {
  }

  /** `read_message`. A line within the limit is refused as not UTF-8 exactly when some chunk's part of it is
      not, with the position before that chunk. In all other cases the outcome and the position afterwards
      are those of the flat specification, whatever the chunks; so they are for every ASCII line. */
  method ReadMessage<M>(codec: Codec<M>, reader: ChunkReader) returns (r: Result<M, ControlError>)
    requires reader.Valid()
    modifies reader
    ensures reader.Valid()
    ensures IsUtf8Error(r) ==> LineRead(old(reader.Chunks()), Err(InvalidUtf8), reader.Rest())
    ensures |FirstLine(old(reader.Rest()))| <= MAX_MESSAGE_SIZE && !IsClean(old(reader.Chunks())) ==> IsUtf8Error(r)
    ensures IsUtf8Error(r) ==> !Ascii(FirstLine(old(reader.Rest())))
    ensures IsUtf8Error(r) || ReadsAs(codec, old(reader.Rest()), r, reader.Rest())
  {
    hide LineRead, ReadsAs, FirstLine, HasNewline, ValidUtf8, NewlineAt, Flatten, CleanBytes, IsClean, Ascii;
    ghost var chunks := reader.Chunks();
    ChunksAreRest(reader);
    var line := ReadLine(reader);
    LineReadMeans(codec, chunks, line, reader.Rest());
    if line.Err? {
      return Err(line.error);
    }
    if |line.value| > MAX_MESSAGE_SIZE {
      return Err(MessageTooLarge(|line.value|));
    }
    match codec.decodeLine(line.value)
    case Some(m) => return Ok(m);
    case None => return Err(Deserialization);
  }

  /** What becomes of the line that was read. */
  function Judge<M>(codec: Codec<M>, line: Result<seq<Byte>, ControlError>): Result<M, ControlError> {
    match line
    case Err(e) => Err(e)
    case Ok(l) =>
      if |l| > MAX_MESSAGE_SIZE then Err(MessageTooLarge(|l|))
      else match codec.decodeLine(l) case Some(m) => Ok(m) case None => Err(Deserialization)
  }

  lemma LineReadMeans<M>(codec: Codec<M>, chunks: seq<seq<Byte>>, line: Result<seq<Byte>, ControlError>,
                         rest: seq<Byte>)
    requires LineRead(chunks, line, rest)
    ensures var (s, r) := (Flatten(chunks), Judge(codec, line));
      && (line == Err(InvalidUtf8) <==> IsUtf8Error(r))
      && (|FirstLine(s)| <= MAX_MESSAGE_SIZE && !IsClean(chunks) ==> IsUtf8Error(r))
      && (IsUtf8Error(r) ==> !Ascii(FirstLine(s)))
      && (IsUtf8Error(r) || ReadsAs(codec, s, r, rest))
  {
    hide ReadsAs;
    var s := Flatten(chunks);
    match line
    case Ok(l) => if |l| > MAX_MESSAGE_SIZE { ReadsTooLarge(codec, s, |l|); } else { ReadsLine(codec, s, l); }
    case Err(ConnectionClosed) => ReadsClosed(codec, s, FirstLine(s));
    case Err(MessageTooLarge(size)) => ReadsTooLarge(codec, s, size);
    case Err(InvalidUtf8) => if Ascii(FirstLine(s)) { AsciiIsClean(chunks); }
    case Err(Deserialization) =>
  }

  lemma ChunksAreRest(reader: ChunkReader)
    ensures Flatten(reader.Chunks()) == reader.Rest()
  {
  }

  lemma CleanUnfolds(chunks: seq<seq<Byte>>, available: seq<Byte>)
    requires if chunks == [] then available == [] else available == chunks[0] != []
    ensures var n := NewlineAt(available);
      CleanBytes(chunks)
      == if available == [] then 0
         else if n < |available| then (if ValidUtf8(available[..n + 1]) then n + 1 else 0)
         else if ValidUtf8(available) then |available| + CleanBytes(chunks[1..]) else 0
  {
    PieceOf(available);
  }

  lemma PieceOf(available: seq<Byte>)
    ensures var nl := NewlineAt(available);
      && (nl < |available| <==> HasNewline(available))
      && FirstLine(available) == if nl < |available| then available[..nl + 1] else available
  {
    NewlineIffBeforeEnd(available);
  }

  lemma StartsWithNewline(s: seq<Byte>)
    requires s != [] && s[0] == NEWLINE
    ensures FirstLine(s) == [NEWLINE]
  {
    assert NewlineAt(s) == 0;
  }

  /** The first line goes on through chunks without a newline. */
  lemma FirstLineOfChunks(chunks: seq<seq<Byte>>)
    requires chunks != []
    ensures var c, rest := chunks[0], Flatten(chunks[1..]);
      FirstLine(Flatten(chunks)) == if HasNewline(c) then FirstLine(c) else c + FirstLine(rest)
  {
    hide FirstLine, HasNewline, NewlineAt;
    var c, rest := chunks[0], Flatten(chunks[1..]);
    NewlineIffBeforeEnd(c);
    if HasNewline(c) {
      var n := NewlineAt(c);
      FirstLineAfter(c[..n], c[n..]);
      FirstLineAfter(c[..n], c[n..] + rest);
      assert c[..n] + c[n..] == c && c[..n] + (c[n..] + rest) == c + rest;
      StartsWithNewline(c[n..]);
      StartsWithNewline(c[n..] + rest);
    } else {
      FirstLineAfter(c, rest);
    }
  }

  /** The first line of the first k chunks is UTF-8. */
  ghost predicate ValidUpTo(chunks: seq<seq<Byte>>, k: nat)
    requires k <= |chunks|
  {
    ValidUtf8(FirstLine(Flatten(chunks[..k])))
  }

  lemma {:induction false} AsciiIsClean(chunks: seq<seq<Byte>>)
    requires Ascii(FirstLine(Flatten(chunks)))
    ensures IsClean(chunks)
  {
    if chunks == [] {
      assert FirstLine([]) == [];
    } else {
      var c, rest := chunks[0], chunks[1..];
      FirstLineOfChunks(chunks);
      PieceOf(c);
      var line := FirstLine(Flatten(chunks));
      forall b | b in FirstLine(c) ensures b < 128 { assert b in line; }
      AsciiIsValid(FirstLine(c));
      if !HasNewline(c) {
        forall b | b in FirstLine(Flatten(rest)) ensures b < 128 { assert b in line; }
        AsciiIsClean(rest);
      }
    }
  }

  lemma {:induction false} CleanIsPrefix(chunks: seq<seq<Byte>>)
    ensures CleanBytes(chunks) <= |FirstLine(Flatten(chunks))|
  {
    if chunks != [] {
      FirstLineOfChunks(chunks);
      PieceOf(chunks[0]);
      CleanIsPrefix(chunks[1..]);
    } else {
      assert FirstLine([]) == [];
    }
  }

  /** The first line, as far as the first k chunks hold it. */
  function LineUpTo(chunks: seq<seq<Byte>>, k: nat): seq<Byte>
    requires k <= |chunks|
  {
    FirstLine(Flatten(chunks[..k]))
  }

  lemma LineUpToUnfolds(chunks: seq<seq<Byte>>, k: nat)
    requires 0 < k <= |chunks|
    ensures var c := chunks[0];
      LineUpTo(chunks, k) == if HasNewline(c) then FirstLine(c) else c + LineUpTo(chunks[1..], k - 1)
  {
    hide FirstLine, HasNewline, Flatten;
    assert chunks[..k][1..] == chunks[1..][..k - 1];
    FirstLineOfChunks(chunks[..k]);
  }

  lemma {:induction false} CleanIffValid(chunks: seq<seq<Byte>>)
    ensures IsClean(chunks) <==> forall k: nat | k <= |chunks| :: ValidUtf8(LineUpTo(chunks, k))
    decreases |chunks|
  {
    hide FirstLine, HasNewline, NewlineAt, ValidUtf8, Flatten, LineUpTo;
    NothingRead(chunks);
    if chunks != [] {
      var c, rest := chunks[0], chunks[1..];
      FirstLineOfChunks(chunks);
      PieceOf(c);
      NothingRead(rest);
      LineUpToUnfolds(chunks, 1);
      CleanIsPrefix(rest);
      CleanIffValid(rest);
      assert c + [] == c;
      assert LineUpTo(chunks, 1) == FirstLine(c);
      if !ValidUtf8(FirstLine(c)) {
        assert FirstLine(c) != [] && CleanBytes(chunks) == 0;
      } else {
        forall k: nat | 0 < k <= |chunks|
          ensures ValidUtf8(LineUpTo(chunks, k)) <==> HasNewline(c) || ValidUtf8(LineUpTo(rest, k - 1))
        {
          LineUpToUnfolds(chunks, k);
          if !HasNewline(c) { ValidAppend(c, LineUpTo(rest, k - 1)); }
        }
        if !HasNewline(c) {
          assert IsClean(chunks) <==> IsClean(rest);
          forall k: nat | k <= |rest|
            ensures ValidUtf8(LineUpTo(rest, k)) <==> ValidUtf8(LineUpTo(chunks, k + 1))
          {
          }
        } else {
          assert IsClean(chunks);
        }
      }
    }
  }

  lemma NothingRead(chunks: seq<seq<Byte>>)
    ensures LineUpTo(chunks, 0) == [] && ValidUtf8([]) && (chunks == [] ==> IsClean(chunks) && CleanBytes(chunks) == 0)
  {
    assert chunks[..0] == [];
    assert FirstLine([]) == [];
  }

  /** Main result: no line is refused as not UTF-8 if it encodes characters and no chunk ends inside one; any
      other line within the limit is, even one that encodes characters. */
  lemma CleanIffWholeCharacters(chunks: seq<seq<Byte>>)
    ensures IsClean(chunks) <==> forall k: nat | k <= |chunks| :: IsText(LineUpTo(chunks, k))
    ensures !IsText(FirstLine(Flatten(chunks))) ==> !IsClean(chunks)
  {
    hide LineUpTo, ValidUtf8;
    CleanIffValid(chunks);
    forall k: nat | k <= |chunks| ensures ValidUtf8(LineUpTo(chunks, k)) <==> IsText(LineUpTo(chunks, k)) {
      ValidIffText(LineUpTo(chunks, k));
    }
    LineUpToAll(chunks);
  }

  lemma LineUpToAll(chunks: seq<seq<Byte>>)
    ensures LineUpTo(chunks, |chunks|) == FirstLine(Flatten(chunks))
  {
    assert chunks[..|chunks|] == chunks;
  }

  lemma ReadsLine<M>(codec: Codec<M>, s: seq<Byte>, line: seq<Byte>)
    requires line == FirstLine(s) && HasNewline(s) && |line| <= MAX_MESSAGE_SIZE
    ensures ReadsAs(codec, s,
                    match codec.decodeLine(line) case Some(m) => Ok(m) case None => Err(Deserialization), s[|line|..])
  {
  }

  lemma ReadsClosed<M>(codec: Codec<M>, s: seq<Byte>, line: seq<Byte>)
    requires s == line && NEWLINE !in line && |line| <= MAX_MESSAGE_SIZE
    ensures ReadsAs(codec, s, Err(ConnectionClosed), []) && FirstLine(s) == line
  {
    NewlineIffBeforeEnd(s);
  }

  lemma ReadsTooLarge<M>(codec: Codec<M>, s: seq<Byte>, size: nat)
    requires MAX_MESSAGE_SIZE < size <= |FirstLine(s)|
    ensures ReadsAs(codec, s, Err(MessageTooLarge(size)), s[|FirstLine(s)|..])
  {
  }

  lemma PieceNotAscii(before: seq<Byte>, piece: seq<Byte>, after: seq<Byte>, line: seq<Byte>)
    requires line == before + piece + after && !ValidUtf8(piece)
    ensures !Ascii(line)
  {
    if Ascii(line) {
      forall b | b in piece ensures b < 128 { assert b in line; }
      AsciiIsValid(piece);
    }
  }

  /** `write_message`: the bytes put on the wire, or None when the encoding is over the limit. */
  function Frame<M>(codec: Codec<M>, m: M): Option<seq<Byte>> {
    if |codec.encode(m)| > MAX_MESSAGE_SIZE then None else Some(codec.encode(m) + [NEWLINE])
  }

  class Writer {
    var written: seq<Byte>

    constructor ()
      ensures written == []
    {
      written := [];
    }

    method WriteAll(bytes: seq<Byte>)
      modifies this
      ensures written == old(written) + bytes
    {
      written := written + bytes;
    }
  }

  method WriteMessage<M>(codec: Codec<M>, writer: Writer, m: M) returns (r: Result<(), ControlError>)
    modifies writer
    ensures r.Ok? <==> Frame(codec, m).Some?
    ensures r.Ok? ==> writer.written == old(writer.written) + Frame(codec, m).value
    ensures r.Err? ==> writer.written == old(writer.written) && r == Err(MessageTooLarge(|codec.encode(m)|))
  {
    var json := codec.encode(m);
    if |json| > MAX_MESSAGE_SIZE {
      return Err(MessageTooLarge(|json|));
    }
    json := json + [NEWLINE];
    writer.WriteAll(json);
    return Ok(());
  }

  lemma AsciiParts(s: seq<Byte>, n: nat)
    requires Ascii(s) && n <= |s|
    ensures Ascii(s[..n]) && Ascii(s[n..])
    ensures n == |FirstLine(s)| ==> Ascii(FirstLine(s))
  {
    forall b | b in s[..n] || b in s[n..] ensures b in s {}
    assert s[..|s|] == s;
  }

  // ---- Reads that are dropped ------------------------------------------------------------

  /** How `read_message` takes bytes off the stream as one arm of `select!`. It is dropped when another
      arm is ready while it waits for more bytes, here after `fills` chunks have come; what it had
      taken by then was only in its own buffer and is lost. It finishes first exactly when the line, or the
      stream, ends within them. (A chunk that is not UTF-8 ends the connection and is not followed here.) */
  method AbandonedRead(reader: ChunkReader, fills: nat) returns (finished: bool, ghost lost: seq<Byte>)
    requires reader.Valid()
    modifies reader
    ensures reader.Valid()
    ensures finished <==> fills > |old(reader.Chunks())| || HasNewline(Flatten(old(reader.Chunks())[..fills]))
    ensures finished ==> reader.Rest() == old(reader.Rest())[|FirstLine(old(reader.Rest()))|..]
    ensures !finished ==> lost == Flatten(old(reader.Chunks())[..fills])
    ensures !finished ==> NEWLINE !in lost && lost + reader.Rest() == old(reader.Rest())
  {
    assert FirstLine([]) == [];
    ghost var whole, chunks := reader.Rest(), reader.Chunks();
    lost := [];
    for i := 0 to fills
      invariant reader.Valid() && NEWLINE !in lost && lost + reader.Rest() == whole
      invariant i <= |chunks| && reader.Chunks() == chunks[i..] && lost == Flatten(chunks[..i])
    {
      var available := reader.FillBuf();
      var nl := NewlineAt(available);
      if nl < |available| {
        LineEnds(lost, reader.Rest(), available, whole);
        NewlineWithin(chunks, i, fills);
        reader.Consume(nl + 1);
        return true, lost;
      }
      LineGoesOn(lost, reader.Rest(), available, whole);
      if available == [] {
        return true, lost;
      }
      FlattenOneMore(chunks, i);
      reader.Consume(|available|);
      lost := lost + available;
    }
    return false, lost;
  }

  lemma {:induction false} FlattenAppend(a: seq<seq<Byte>>, b: seq<seq<Byte>>)
    ensures Flatten(a + b) == Flatten(a) + Flatten(b)
  {
    if a == [] {
      assert a + b == b;
    } else {
      assert (a + b)[1..] == a[1..] + b;
      FlattenAppend(a[1..], b);
    }
  }

  lemma FlattenOneMore(chunks: seq<seq<Byte>>, i: nat)
    requires i < |chunks|
    ensures Flatten(chunks[..i + 1]) == Flatten(chunks[..i]) + chunks[i]
  {
    assert chunks[..i + 1] == chunks[..i] + [chunks[i]];
    FlattenAppend(chunks[..i], [chunks[i]]);
    assert Flatten([chunks[i]]) == chunks[i] + [];
  }

  lemma NewlineWithin(chunks: seq<seq<Byte>>, i: nat, fills: nat)
    requires i < |chunks| && i < fills && HasNewline(chunks[i])
    ensures fills <= |chunks| ==> HasNewline(Flatten(chunks[..fills]))
  {
    if fills <= |chunks| {
      FlattenOneMore(chunks, i);
      assert chunks[..i + 1] + chunks[i + 1..fills] == chunks[..fills];
      FlattenAppend(chunks[..i + 1], chunks[i + 1..fills]);
    }
  }

  /** A dropped read leaves the stream in step if and only if it had taken nothing: otherwise the next
      read gets the tail of the line as if it were a line. Reads after that are in step again. */
  lemma DroppedReadInStepIff<M>(codec: Codec<M>, lost: seq<Byte>, rest: seq<Byte>)
    requires NEWLINE !in lost
    ensures FirstLine(lost + rest) == lost + FirstLine(rest)
    ensures FirstLine(rest) == FirstLine(lost + rest) <==> lost == []
    ensures ReadFlat(codec, rest).1 == ReadFlat(codec, lost + rest).1
  {
    FirstLineAfter(lost, rest);
    assert |FirstLine(lost + rest)| == |lost| + |FirstLine(rest)|;
    assert lost == [] ==> lost + rest == rest;
  }

  // ---- Whole streams ------------------------------------------------------------------

  /** Reading until the stream is closed. */
  function ReadAll<M>(codec: Codec<M>, s: seq<Byte>): seq<Outcome<M>>
    decreases |s|
  {
    var (o, rest) := ReadFlat(codec, s);
    if o.Closed? then [o]
    else if |rest| < |s| then [o] + ReadAll(codec, rest)
    else assert false; []
  }

  lemma ReadAllUnfolds<M>(codec: Codec<M>, s: seq<Byte>, outcomes: seq<Outcome<M>>)
    ensures var (o, rest) := ReadFlat(codec, s);
      && (o.Closed? ==> ReadAll(codec, s) == [o])
      && (!o.Closed? ==> |rest| < |s| && outcomes + ReadAll(codec, s) == (outcomes + [o]) + ReadAll(codec, rest))
  {
    var (o, rest) := ReadFlat(codec, s);
    if !o.Closed? {
      assert ReadAll(codec, s) == [o] + ReadAll(codec, rest);
    }
  }

  /** Reads until the stream is closed. The daemons' own loops end at the first error; going on shows
      that an error leaves the stream in step. */
  method ReadUntilClosed<M>(codec: Codec<M>, reader: ChunkReader) returns (outcomes: seq<Outcome<M>>)
    requires reader.Valid() && Ascii(reader.Rest())
    modifies reader
    ensures outcomes == ReadAll(codec, old(reader.Rest()))
  {
    outcomes := [];
    ghost var whole := reader.Rest();
    while true
      invariant reader.Valid() && Ascii(reader.Rest())
      invariant ReadAll(codec, whole) == outcomes + ReadAll(codec, reader.Rest())
      decreases |reader.Rest()|
    {
      ghost var s := reader.Rest();
      AsciiParts(s, |FirstLine(s)|);
      ReadAllUnfolds(codec, s, outcomes);
      var r := ReadMessage(codec, reader);
      match r {
        case Ok(m) => outcomes := outcomes + [Message(m)];
        case Err(Deserialization) => outcomes := outcomes + [Malformed];
        case Err(MessageTooLarge(_)) => outcomes := outcomes + [TooLarge];
        case Err(_) => return outcomes + [Closed];
      }
    }
  }

  /** What a line amounts to by itself. */
  function Classify<M>(codec: Codec<M>, line: seq<Byte>): (o: Outcome<M>)
    ensures !o.Closed?
  {
    if |line| > MAX_MESSAGE_SIZE then TooLarge
    else match codec.decodeLine(line) case Some(m) => Message(m) case None => Malformed
  }

  predicate IsLine(line: seq<Byte>) {
    line != [] && line[|line| - 1] == NEWLINE && NEWLINE !in line[..|line| - 1]
  }

  function ClassifyAll<M>(codec: Codec<M>, lines: seq<seq<Byte>>): seq<Outcome<M>> {
    if lines == [] then [] else [Classify(codec, lines[0])] + ClassifyAll(codec, lines[1..])
  }

  lemma ReadsOneLine<M>(codec: Codec<M>, line: seq<Byte>, rest: seq<Byte>)
    requires IsLine(line)
    ensures ReadFlat(codec, line + rest) == (Classify(codec, line), rest)
  {
    FirstLineOfLine(line, rest);
  }

  lemma FirstLineOfLine(line: seq<Byte>, rest: seq<Byte>)
    requires IsLine(line)
    ensures FirstLine(line + rest) == line && HasNewline(line + rest)
  {
    var body := line[..|line| - 1];
    FirstLineAfter(body, [NEWLINE] + rest);
    assert FirstLine([NEWLINE] + rest) == [NEWLINE];
    assert line == body + [NEWLINE];
    assert line + rest == body + ([NEWLINE] + rest);
  }

  lemma ReadsTail<M>(codec: Codec<M>, tail: seq<Byte>)
    requires NEWLINE !in tail
    ensures ReadAll(codec, tail) == if |tail| > MAX_MESSAGE_SIZE then [TooLarge, Closed] else [Closed]
  {
    NewlineIffBeforeEnd(tail);
    assert FirstLine(tail) == tail && tail[|tail|..] == [];
    ReadAllUnfolds(codec, tail, []);
    ReadAllUnfolds(codec, [], [TooLarge]);
  }

  /** Main result: reading a stream is splitting it at newlines and judging each line by itself,
      followed by whatever unterminated tail there is. */
  lemma {:induction false} ReadingIsSplitting<M>(codec: Codec<M>, lines: seq<seq<Byte>>, tail: seq<Byte>)
    requires forall l | l in lines :: IsLine(l)
    requires NEWLINE !in tail
    ensures ReadAll(codec, Flatten(lines) + tail)
         == ClassifyAll(codec, lines) + (if |tail| > MAX_MESSAGE_SIZE then [TooLarge, Closed] else [Closed])
  {
    hide ReadFlat, Classify;
    if lines == [] {
      assert Flatten(lines) + tail == tail;
      ReadsTail(codec, tail);
    } else {
      assert lines[0] in lines && forall l | l in lines[1..] :: l in lines;
      var rest := Flatten(lines[1..]) + tail;
      assert Flatten(lines) + tail == lines[0] + rest;
      ReadsOneLine(codec, lines[0], rest);
      ReadAllUnfolds(codec, lines[0] + rest, []);
      ReadingIsSplitting(codec, lines[1..], tail);
    }
  }

  /** Every stream is lines followed by a tail, so the result above covers every stream. */
  lemma {:induction false} EveryStreamSplits(s: seq<Byte>) returns (lines: seq<seq<Byte>>, tail: seq<Byte>)
    ensures Flatten(lines) + tail == s && (forall l | l in lines :: IsLine(l)) && NEWLINE !in tail
    decreases |s|
  {
    NewlineIffBeforeEnd(s);
    if HasNewline(s) {
      var l := FirstLine(s);
      var rest;
      rest, tail := EveryStreamSplits(s[|l|..]);
      lines := [l] + rest;
      assert s == l + s[|l|..];
    } else {
      lines, tail := [], s;
    }
  }

  function FramedLines<M>(codec: Codec<M>, messages: seq<M>): seq<seq<Byte>> {
    if messages == [] then [] else [codec.encode(messages[0]) + [NEWLINE]] + FramedLines(codec, messages[1..])
  }

  function AsOutcomes<M>(messages: seq<M>): seq<Outcome<M>> {
    if messages == [] then [] else [Message(messages[0])] + AsOutcomes(messages[1..])
  }

  lemma {:induction false} FramedLinesClassify<M(!new)>(codec: Codec<M>, messages: seq<M>)
    requires Lawful(codec)
    requires forall m | m in messages :: |codec.encode(m)| < MAX_MESSAGE_SIZE
    ensures ClassifyAll(codec, FramedLines(codec, messages)) == AsOutcomes(messages)
    ensures forall l | l in FramedLines(codec, messages) :: IsLine(l)
  {
    if messages != [] {
      assert messages[0] in messages && forall m | m in messages[1..] :: m in messages;
      var line := codec.encode(messages[0]) + [NEWLINE];
      assert line[..|line| - 1] == codec.encode(messages[0]);
      FramedLinesClassify(codec, messages[1..]);
    }
  }

  /** Main result: messages that encode to at most 65,535 bytes, written one after the other, read
      back in order. */
  lemma WrittenMessagesReadBack<M(!new)>(codec: Codec<M>, messages: seq<M>)
    requires Lawful(codec)
    requires forall m | m in messages :: |codec.encode(m)| < MAX_MESSAGE_SIZE
    ensures ReadAll(codec, Flatten(FramedLines(codec, messages))) == AsOutcomes(messages) + [Closed]
  {
    var lines := FramedLines(codec, messages);
    FramedLinesClassify(codec, messages);
    ReadingIsSplitting(codec, lines, []);
    assert Flatten(lines) + [] == Flatten(lines);
  }

  lemma {:induction false} FramedLinesAppend<M>(codec: Codec<M>, messages: seq<M>, m: M)
    ensures Flatten(FramedLines(codec, messages + [m]))
         == Flatten(FramedLines(codec, messages)) + (codec.encode(m) + [NEWLINE])
  {
    var whole := messages + [m];
    if messages == [] {
      assert whole[1..] == [];
      assert Flatten(FramedLines(codec, whole)) == codec.encode(m) + [NEWLINE] + [];
    } else {
      assert whole[1..] == messages[1..] + [m];
      FramedLinesAppend(codec, messages[1..], m);
    }
  }

  lemma {:induction false} FramedLinesAreAscii<M>(codec: Codec<M>, messages: seq<M>)
    requires forall m | m in messages :: Ascii(codec.encode(m))
    ensures Ascii(Flatten(FramedLines(codec, messages)))
  {
    if messages != [] {
      assert messages[0] in messages && forall m | m in messages[1..] :: m in messages;
      FramedLinesAreAscii(codec, messages[1..]);
      var line, rest := codec.encode(messages[0]), Flatten(FramedLines(codec, messages[1..]));
      assert Flatten(FramedLines(codec, messages)) == line + [NEWLINE] + rest;
      forall b | b in line + [NEWLINE] + rest ensures b < 128 {
        assert b in line || b == NEWLINE || b in rest;
      }
    }
  }

  /** Main result: ASCII messages below the limit, written one after the other and cut into any chunks,
      are read back in order by the streaming reader. */
  method MessagesRoundTrip<M(!new)>(codec: Codec<M>, messages: seq<M>, cut: seq<Byte> -> seq<seq<Byte>>)
    returns (outcomes: seq<Outcome<M>>)
    requires Lawful(codec) && Cuts(cut)
    requires forall m | m in messages :: Ascii(codec.encode(m)) && |codec.encode(m)| < MAX_MESSAGE_SIZE
    ensures outcomes == AsOutcomes(messages) + [Closed]
  {
    var writer := new Writer();
    for i := 0 to |messages|
      invariant writer.written == Flatten(FramedLines(codec, messages[..i]))
    {
      FramedLinesAppend(codec, messages[..i], messages[i]);
      assert messages[..i + 1] == messages[..i] + [messages[i]];
      var sent := WriteMessage(codec, writer, messages[i]);
      assert messages[i] in messages && sent.Ok?;
    }
    assert messages[..|messages|] == messages;
    FramedLinesAreAscii(codec, messages);
    WrittenMessagesReadBack(codec, messages);
    var reader := new ChunkReader(cut(writer.written));
    outcomes := ReadUntilClosed(codec, reader);
  }

  /** What becomes of a message by the length of its encoding: the writer's limit does not count the newline,
      the reader's does, so an encoding of exactly 65,536 bytes is sent and then refused. */
  lemma WrittenIsReadableIff<M(!new)>(codec: Codec<M>, m: M, rest: seq<Byte>)
    requires Lawful(codec)
    ensures Frame(codec, m).None? <==> |codec.encode(m)| > 65536
    ensures Frame(codec, m).Some? ==> Frame(codec, m).value == codec.encode(m) + [10]
    ensures Frame(codec, m).Some? ==>
      var (o, left) := ReadFlat(codec, Frame(codec, m).value + rest);
      && left == rest
      && (o == Message(m) <==> |codec.encode(m)| < 65536)
      && (o == TooLarge <==> |codec.encode(m)| == 65536)
  {
    if Frame(codec, m).Some? {
      var line := Frame(codec, m).value;
      assert line[..|line| - 1] == codec.encode(m);
      ReadsOneLine(codec, line, rest);
    }
  }
}
