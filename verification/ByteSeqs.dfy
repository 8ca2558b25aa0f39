/** Bytes, byte strings and flattening: the vocabulary every other module uses. */
module ByteSeqs {
  type byte = b: int | 0 <= b < 256
  type Bytes = seq<byte>

  const SPACE: byte := 32
  const NEWLINE: byte := 10
  const RETURN: byte := 13
  const CRLF: Bytes := [RETURN, NEWLINE]

  datatype Option<+T> = None | Some(value: T)

  /** The errors of the modelled packages. `Panic` stands for a Go run-time panic. */
  datatype Error =
    | EOF
    | UnexpectedEOF
    | BufferFull
    | InvalidLine
    | InvalidByte
    | InvalidNewline
    | TooLarge
    | CrcMismatch
    | UnknownCommand
    | InvalidNumArgs
    | NoTopic
    | BodyTooSmall
    | NotFound
    | InvalidOffset
    | InvalidRequest
    | NoPartitions
    | NoSuchFile
    | BadSeek
    | Internal
    | Panic

  /** The index of the first `d` in `s`, or |s| when there is none. */
  function IndexOf(s: Bytes, d: byte): (i: nat)
    ensures i <= |s|
  {
    if s == [] then 0 else if s[0] == d then 0 else 1 + IndexOf(s[1..], d)
  }

  lemma {:induction false} IndexOfFirst(s: Bytes, d: byte)
    ensures var i := IndexOf(s, d);
            (i < |s| ==> s[i] == d) && forall j :: 0 <= j < i ==> s[j] != d
  {
    if s != [] && s[0] != d {
      IndexOfFirst(s[1..], d);
      assert s == [s[0]] + s[1..];
    }
  }

  lemma IndexOfIs(s: Bytes, d: byte, i: nat)
    requires i <= |s|
    requires i < |s| ==> s[i] == d
    requires forall j :: 0 <= j < i ==> s[j] != d
    ensures IndexOf(s, d) == i
  {
    IndexOfFirst(s, d);
  }

  /** Concatenation of a list of sequences, oldest first. */
  function Flat<T>(ss: seq<seq<T>>): seq<T>
  {
    if ss == [] then [] else ss[0] + Flat(ss[1..])
  }

  lemma Associate<T>(a: seq<T>, b: seq<T>, c: seq<T>)
    ensures a + (b + c) == a + b + c
  {}

  lemma {:induction false} FlatConcat<T>(a: seq<seq<T>>, b: seq<seq<T>>)
    ensures Flat(a + b) == Flat(a) + Flat(b)
  {
    if a == [] {
      assert a + b == b;
    } else {
      FlatConcat(a[1..], b);
      var ra, rb := Flat(a[1..]), Flat(b);
      assert (a + b)[1..] == a[1..] + b;
      assert Flat(a + b) == a[0] + (ra + rb);
      assert a[0] + (ra + rb) == a[0] + ra + rb;
    }
  }

  lemma FlatEmpty<T>()
    ensures Flat<T>([]) == []
  {}

  lemma FlatSingle<T>(x: seq<T>)
    ensures Flat([x]) == x
  {
    assert [x][1..] == [];
  }

  lemma FlatSnoc<T>(a: seq<seq<T>>, x: seq<T>)
    ensures Flat(a + [x]) == Flat(a) + x
  {
    FlatConcat(a, [x]);
    FlatSingle(x);
  }

  /** Flattening splits at any position of the list. */
  lemma FlatSplit<T>(a: seq<seq<T>>, i: nat)
    requires i <= |a|
    ensures Flat(a) == Flat(a[..i]) + Flat(a[i..])
  {
    FlatConcat(a[..i], a[i..]);
    assert a[..i] + a[i..] == a;
  }
}
