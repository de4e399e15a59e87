/** Sequences built by replacing each element with a piece: escaped strings, encoded keys. */
module Sequences {

  function Flat<T, U>(s: seq<T>, piece: T -> seq<U>): seq<U> {
    if s == [] then [] else piece(s[0]) + Flat(s[1..], piece)
  }

  lemma TakeOneMore<T>(s: seq<T>, k: nat)
    requires k < |s|
    ensures s[..k + 1] == s[..k] + [s[k]]
  {
  }

  lemma Regroup<T>(a: seq<T>, b: seq<T>, c: seq<T>)
    ensures (a + b) + c == a + (b + c)
  {
  }

  lemma {:induction false} FlatConcat<T, U>(s: seq<T>, t: seq<T>, piece: T -> seq<U>)
    ensures Flat(s + t, piece) == Flat(s, piece) + Flat(t, piece)
  {
    if s == [] {
      assert s + t == t;
    } else {
      FlatConcat(s[1..], t, piece);
      assert (s + t)[1..] == s[1..] + t;
      Regroup(piece(s[0]), Flat(s[1..], piece), Flat(t, piece));
    }
  }

  lemma FlatSnoc<T, U>(s: seq<T>, x: T, piece: T -> seq<U>)
    ensures Flat(s + [x], piece) == Flat(s, piece) + piece(x)
  {
    FlatConcat(s, [x], piece);
    assert Flat([x], piece) == piece(x) + Flat([], piece);
  }
}
