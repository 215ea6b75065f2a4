/** The streaming validator of uploads (storage.go) against the grammar of section 4 of RFC 3629. */
module Utf8Validator {
  import opened Framing

  const UTF_MAX: nat := 4

  // ---------------------------------------------------------------------------------------------------------
  // The grammar
  // ---------------------------------------------------------------------------------------------------------

  predicate Tail(b: Byte) { 0x80 <= b <= 0xBF }

  predicate Utf8Char(s: Bytes) {
    || (|s| == 1 && s[0] <= 0x7F)
    || (|s| == 2 && 0xC2 <= s[0] <= 0xDF && Tail(s[1]))
    || (|s| == 3 && s[0] == 0xE0 && 0xA0 <= s[1] <= 0xBF && Tail(s[2]))
    || (|s| == 3 && 0xE1 <= s[0] <= 0xEC && Tail(s[1]) && Tail(s[2]))
    || (|s| == 3 && s[0] == 0xED && 0x80 <= s[1] <= 0x9F && Tail(s[2]))
    || (|s| == 3 && 0xEE <= s[0] <= 0xEF && Tail(s[1]) && Tail(s[2]))
    || (|s| == 4 && s[0] == 0xF0 && 0x90 <= s[1] <= 0xBF && Tail(s[2]) && Tail(s[3]))
    || (|s| == 4 && 0xF1 <= s[0] <= 0xF3 && Tail(s[1]) && Tail(s[2]) && Tail(s[3]))
    || (|s| == 4 && s[0] == 0xF4 && 0x80 <= s[1] <= 0x8F && Tail(s[2]) && Tail(s[3]))
  }

  /** A sequence of characters of the grammar. */
  ghost predicate Valid(s: Bytes)
    decreases |s|
  {
    s == [] || exists n | 1 <= n <= |s| :: Utf8Char(s[..n]) && Valid(s[n..])
  }

  // ---------------------------------------------------------------------------------------------------------
  // The library functions
  // ---------------------------------------------------------------------------------------------------------

  /** How many bytes the first byte announces; an invalid one stands for itself. */
  function Announced(b: Byte): (n: nat)
    ensures 1 <= n <= 4
  {
    if 0xC2 <= b <= 0xDF then 2
    else if 0xE0 <= b <= 0xEF then 3
    else if 0xF0 <= b <= 0xF4 then 4
    else 1
  }

  predicate Starts(b: Byte) { b <= 0x7F || 0xC2 <= b <= 0xF4 }

  predicate SecondOk(first: Byte, second: Byte) {
    if first == 0xE0 then 0xA0 <= second <= 0xBF
    else if first == 0xED then 0x80 <= second <= 0x9F
    else if first == 0xF0 then 0x90 <= second <= 0xBF
    else if first == 0xF4 then 0x80 <= second <= 0x8F
    else Tail(second)
  }

  /** Whether the bytes begin with a whole encoding, valid or not. */
  predicate FullRune(p: Bytes) {
    if p == [] then false
    else if |p| >= Announced(p[0]) then true
    else if |p| > 1 && !SecondOk(p[0], p[1]) then true
    else |p| > 2 && !Tail(p[2])
  }

  /** The size of the first encoding, or None for an error, which has size 1. */
  datatype Decoded = Rune(size: nat) | RuneError

  function DecodeRune(p: Bytes): Decoded
    requires p != []
  {
    var n := Announced(p[0]);
    if !Starts(p[0]) then RuneError
    else if n == 1 then Rune(1)
    else if |p| < n || !SecondOk(p[0], p[1]) then RuneError
    else if n == 2 then Rune(2)
    else if !Tail(p[2]) then RuneError
    else if n == 3 then Rune(3)
    else if !Tail(p[3]) then RuneError
    else Rune(4)
  }

  // ---------------------------------------------------------------------------------------------------------
  // The validator
  // ---------------------------------------------------------------------------------------------------------

  /** What is left pending of the data, and whether it was acceptable so far. */
  function Scan(data: Bytes): (Bytes, bool)
    decreases |data|
  {
    if data == [] then ([], true)
    else if !FullRune(data) then (data, |data| <= UTF_MAX - 1)
    else match DecodeRune(data)
      case RuneError => ([], false)
      case Rune(size) =>
        RuneIsChar(data);
        Scan(data[size..])
  }

  function Write(pending: Bytes, chunk: Bytes): (Bytes, bool) {
    Scan(pending + chunk)
  }

  function Concat(chunks: seq<Bytes>): Bytes {
    if chunks == [] then [] else chunks[0] + Concat(chunks[1..])
  }

  /** Writing the chunks in turn until one is refused. */
  function WriteAll(pending: Bytes, chunks: seq<Bytes>): (Bytes, bool)
    decreases chunks
  {
    if chunks == [] then (pending, true)
    else
      var (p, ok) := Write(pending, chunks[0]);
      if !ok then (p, false) else WriteAll(p, chunks[1..])
  }

  // ---------------------------------------------------------------------------------------------------------
  // The library functions recognise the grammar
  // ---------------------------------------------------------------------------------------------------------

  lemma CharSize(s: Bytes, n: nat)
    requires 1 <= n <= |s| && Utf8Char(s[..n])
    ensures n == Announced(s[0]) && FullRune(s) && DecodeRune(s) == Rune(n)
  {
    assert forall i | 0 <= i < n :: s[..n][i] == s[i];
  }

  lemma RuneIsChar(s: Bytes)
    requires s != [] && DecodeRune(s).Rune?
    ensures 1 <= DecodeRune(s).size <= |s| && Utf8Char(s[..DecodeRune(s).size])
  {
  }

  /** Bytes that do not begin a character do not come to do so by what follows. */
  lemma ErrorStays(data: Bytes, rest: Bytes)
    requires data != [] && FullRune(data) && DecodeRune(data) == RuneError
    ensures DecodeRune(data + rest) == RuneError
  {
    assert forall i | 0 <= i < |data| :: (data + rest)[i] == data[i];
  }

  lemma ValidFirst(s: Bytes)
    requires s != []
    ensures Valid(s) <==> DecodeRune(s).Rune? && DecodeRune(s).size <= |s| && Valid(s[DecodeRune(s).size..])
  {
    if Valid(s) {
      var n :| 1 <= n <= |s| && Utf8Char(s[..n]) && Valid(s[n..]);
      CharSize(s, n);
    }
    if DecodeRune(s).Rune? { RuneIsChar(s); }
  }

  /** What was read and accepted makes no difference to the rest; what was refused cannot be mended. */
  lemma {:induction false} ScanIsFaithful(data: Bytes, rest: Bytes)
    ensures Scan(data).1 ==> (Valid(data + rest) <==> Valid(Scan(data).0 + rest))
    ensures !Scan(data).1 ==> !Valid(data + rest)
    ensures Scan(data).1 ==> |Scan(data).0| <= 3 && !FullRune(Scan(data).0)
    decreases |data|
  {
    if data != [] && FullRune(data) {
      ValidFirst(data + rest);
      if DecodeRune(data) == RuneError {
        ErrorStays(data, rest);
      } else {
        var n := DecodeRune(data).size;
        RuneIsChar(data);
        assert (data + rest)[..n] == data[..n];
        CharSize(data + rest, n);
        assert (data + rest)[n..] == data[n..] + rest;
        ScanIsFaithful(data[n..], rest);
      }
    }
  }

  lemma PartialIsInvalid(p: Bytes)
    requires p != [] && !FullRune(p)
    ensures !Valid(p)
  {
    ValidFirst(p);
    if DecodeRune(p).Rune? {
      RuneIsChar(p);
      CharSize(p, DecodeRune(p).size);
    }
  }

  lemma {:induction false} WriteAllIsFaithful(pending: Bytes, chunks: seq<Bytes>)
    requires !FullRune(pending) && |pending| <= 3
    ensures WriteAll(pending, chunks).1 && WriteAll(pending, chunks).0 == [] <==> Valid(pending + Concat(chunks))
    ensures WriteAll(pending, chunks).1 ==> |WriteAll(pending, chunks).0| <= 3
    decreases chunks
  {
    if chunks == [] {
      assert pending + [] == pending;
      if pending != [] { PartialIsInvalid(pending); }
    } else {
      var data, rest := pending + chunks[0], Concat(chunks[1..]);
      assert pending + Concat(chunks) == data + rest;
      ScanIsFaithful(data, rest);
      if Scan(data).1 { WriteAllIsFaithful(Scan(data).0, chunks[1..]); }
    }
  }

  /**
   However a byte string is cut into chunks: all writes succeed and the validator is complete exactly if the whole
   string is valid, and never more than three bytes are pending.
  */
  lemma ChunkingDoesNotMatter(chunks: seq<Bytes>)
    ensures WriteAll([], chunks).1 && WriteAll([], chunks).0 == [] <==> Valid(Concat(chunks))
    ensures WriteAll([], chunks).1 ==> |WriteAll([], chunks).0| <= 3
  {
    assert [] + Concat(chunks) == Concat(chunks);
    WriteAllIsFaithful([], chunks);
  }

  class Validator {
    var pending: Bytes

    constructor ()
      ensures pending == []
    {
      pending := [];
    }

    method Write(chunk: Bytes) returns (ok: bool)
      modifies this
      ensures ok == Scan(old(pending) + chunk).1
      ensures ok ==> pending == Scan(old(pending) + chunk).0
    {
      var data := pending + chunk;
      pending := [];
      while |data| > 0
        invariant Scan(data) == Scan(old(pending) + chunk) && pending == []
        decreases |data|
      {
        if !FullRune(data) {
          pending := data;
          return |pending| <= UTF_MAX - 1;
        }
        var decoded := DecodeRune(data);
        if decoded == RuneError { return false; }
        RuneIsChar(data);
        data := data[decoded.size..];
      }
      return true;
    }

    predicate Complete()
      reads this
    {
      |pending| == 0
    }
  }
}
