/** The buffered reader both parsers consume, and the token readers built on it. */
module Streams {
  import opened ByteSeqs
  import opened Decimal

  /** The outcome of a reading step; `rest` is what the reader has not consumed. */
  datatype Parsed<+T> = Parsed(value: T, rest: Bytes) | Failed(err: Error, rest: Bytes) {
    predicate IsFailure() { Failed? }

    function PropagateFailure<U>(): Parsed<U>
      requires Failed?
    {
      Failed(err, rest)
    }

    function Extract(): (T, Bytes)
      requires Parsed?
    {
      (value, rest)
    }
  }

  datatype Slice = Slice(word: Bytes, rest: Bytes, err: Option<Error>)

  /** bufio.Reader.ReadSlice over the unread bytes `s` with a buffer of `buf` bytes: the bytes up
      to and including the delimiter, or an error together with everything that was buffered. */
  function ReadSlice(buf: nat, s: Bytes, d: byte): (r: Slice)
    ensures r.word + r.rest == s
  {
    var i := IndexOf(s, d);
    if i < |s| && i < buf then Slice(s[..i + 1], s[i + 1..], None)
    else if |s| < buf then Slice(s, [], Some(EOF))
    else Slice(s[..buf], s[buf..], Some(BufferFull))
  }

  /** io.ReadFull: io.EOF when nothing was read, io.ErrUnexpectedEOF after a partial read. */
  function ReadFull(s: Bytes, n: nat): Parsed<Bytes>
  {
    if n <= |s| then Parsed(s[..n], s[n..])
    else if s == [] then Failed(EOF, [])
    else Failed(UnexpectedEOF, [])
  }

  /** A word up to `d`, less its last `strip` bytes. A word too short to strip panics. */
  function ReadToken(buf: nat, s: Bytes, d: byte, strip: nat): Parsed<Bytes>
  {
    var r := ReadSlice(buf, s, d);
    if r.err.Some? then Failed(r.err.value, r.rest)
    else if |r.word| < strip then Failed(Panic, r.rest)
    else Parsed(r.word[..|r.word| - strip], r.rest)
  }

  function ReadNumber(buf: nat, s: Bytes, d: byte, strip: nat): Parsed<uint64>
  {
    var (tok, rest) :- ReadToken(buf, s, d, strip);
    match ParseUint(tok)
    case None => Failed(InvalidByte, rest)
    case Some(n) => Parsed(n, rest)
  }

  /** The number of bytes a successful step consumed. */
  function Used<T>(s: Bytes, p: Parsed<T>): int { |s| - |p.rest| }

  lemma TokenShrinks(buf: nat, s: Bytes, d: byte, strip: nat)
    ensures |ReadToken(buf, s, d, strip).rest| <= |s|
  {}

  lemma NumberShrinks(buf: nat, s: Bytes, d: byte, strip: nat)
    ensures |ReadNumber(buf, s, d, strip).rest| <= |s|
  {}

  lemma SliceExtend(buf: nat, s: Bytes, d: byte, t: Bytes)
    requires ReadSlice(buf, s, d).err == None
    ensures var r := ReadSlice(buf, s, d); ReadSlice(buf, s + t, d) == Slice(r.word, r.rest + t, None)
  {
    var i := IndexOf(s, d);
    IndexOfFirst(s, d);
    IndexOfIs(s + t, d, i);
    assert (s + t)[..i + 1] == s[..i + 1];
    assert (s + t)[i + 1..] == s[i + 1..] + t;
  }

  /** A successful read never looks past what it consumes. */
  lemma TokenExtend(buf: nat, s: Bytes, d: byte, strip: nat, t: Bytes)
    requires ReadToken(buf, s, d, strip).Parsed?
    ensures var p := ReadToken(buf, s, d, strip);
            ReadToken(buf, s + t, d, strip) == Parsed(p.value, p.rest + t)
  {
    SliceExtend(buf, s, d, t);
  }

  /** Cutting the input inside the word is end of file; cutting it later changes nothing. */
  lemma TokenCut(buf: nat, s: Bytes, d: byte, strip: nat, k: nat)
    requires ReadToken(buf, s, d, strip).Parsed? && k <= |s|
    ensures var p := ReadToken(buf, s, d, strip);
            var w := Used(s, p);
            && 1 <= w <= |s|
            && ReadToken(buf, s[..k], d, strip)
               == if k < w then Failed(EOF, []) else Parsed(p.value, p.rest[..k - w])
  {
    var i := IndexOf(s, d);
    IndexOfFirst(s, d);
    var c := s[..k];
    if k <= i {
      IndexOfIs(c, d, k);
    } else {
      IndexOfIs(c, d, i);
      assert c[..i + 1] == s[..i + 1];
      assert c[i + 1..] == s[i + 1..][..k - (i + 1)];
    }
  }

  lemma NumberExtend(buf: nat, s: Bytes, d: byte, strip: nat, t: Bytes)
    requires ReadNumber(buf, s, d, strip).Parsed?
    ensures var p := ReadNumber(buf, s, d, strip);
            ReadNumber(buf, s + t, d, strip) == Parsed(p.value, p.rest + t)
  {
    TokenExtend(buf, s, d, strip, t);
  }

  lemma NumberCut(buf: nat, s: Bytes, d: byte, strip: nat, k: nat)
    requires ReadNumber(buf, s, d, strip).Parsed? && k <= |s|
    ensures var p := ReadNumber(buf, s, d, strip);
            var w := Used(s, p);
            && 1 <= w <= |s|
            && ReadNumber(buf, s[..k], d, strip)
               == if k < w then Failed(EOF, []) else Parsed(p.value, p.rest[..k - w])
  {
    TokenCut(buf, s, d, strip, k);
  }

  /** A delimited word is read back, whatever follows it. */
  lemma TokenOfText(buf: nat, word: Bytes, tail: Bytes, d: byte, t: Bytes)
    requires |tail| >= 1 && tail[|tail| - 1] == d
    requires d !in word && d !in tail[..|tail| - 1]
    requires |word| + |tail| <= buf
    ensures ReadToken(buf, word + tail + t, d, |tail|) == Parsed(word, t)
  {
    var s := word + tail + t;
    var i := |word| + |tail| - 1;
    assert forall j :: 0 <= j < |tail| - 1 ==> tail[j] == tail[..|tail| - 1][j];
    assert forall j :: |word| <= j < i ==> s[j] == tail[j - |word|];
    IndexOfIs(s, d, i);
    assert s[..i + 1] == word + tail;
    assert (word + tail)[..|word|] == word;
    assert s[i + 1..] == t;
  }

  lemma NumberOfText(buf: nat, n: uint64, tail: Bytes, d: byte, t: Bytes)
    requires |tail| >= 1 && tail[|tail| - 1] == d
    requires !IsDigit(d) && d !in tail[..|tail| - 1]
    requires 20 + |tail| <= buf
    ensures ReadNumber(buf, Digits(n) + tail + t, d, |tail|) == Parsed(n, t)
  {
    DigitsOfUint64(n);
    ParseUintOfDigits(n);
    TokenOfText(buf, Digits(n), tail, d, t);
  }

  /** The reader object: `rest` is the unread input. */
  class Reader {
    const buf: nat
    var rest: Bytes

    constructor (buf: nat, data: Bytes)
      ensures this.buf == buf && rest == data
    {
      this.buf := buf;
      rest := data;
    }

    /** Switches to another source; whatever was buffered is dropped. */
    method Reset(data: Bytes)
      modifies this
      ensures rest == data
    {
      rest := data;
    }

    method TakeSlice(d: byte) returns (word: Bytes, err: Option<Error>)
      modifies this
      ensures Slice.Slice(word, rest, err) == ReadSlice(buf, old(rest), d)
    {
      var r := ReadSlice(buf, rest, d);
      word, rest, err := r.word, r.rest, r.err;
    }

    method TakeFull(n: nat) returns (data: Bytes, err: Option<Error>)
      modifies this
      ensures match ReadFull(old(rest), n)
              case Parsed(v, r) => data == v && rest == r && err == None && |data| == n
              case Failed(e, r) => data == old(rest) && rest == r && err == Some(e)
    {
      if n <= |rest| {
        data, rest, err := rest[..n], rest[n..], None;
      } else {
        err := Some(if rest == [] then EOF else UnexpectedEOF);
        data, rest := rest, [];
      }
    }
  }
}
