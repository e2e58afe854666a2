/** Facts about sequences that hold whatever their elements are. */
module Sequences {

  lemma Assoc<T>(a: seq<T>, b: seq<T>, c: seq<T>)
    ensures a + b + c == a + (b + c)
  {
  }

  lemma Nothing<T>(a: seq<T>)
    ensures a + [] == a && [] + a == a
  {
  }

  /** What is in front of a concatenation is its first part, and what is left is its second. */
  lemma Parts<T>(a: seq<T>, b: seq<T>)
    ensures (a + b)[..|a|] == a && (a + b)[|a|..] == b
  {
  }

  lemma DropOne<T>(s: seq<T>, i: nat)
    requires i < |s|
    ensures s[i..] == [s[i]] + s[i + 1..] && s[i..][1..] == s[i + 1..]
  {
  }

  lemma TakeOne<T>(s: seq<T>, i: nat)
    requires i < |s|
    ensures s[..i + 1] == s[..i] + [s[i]] && s[..i + 1][..i] == s[..i]
  {
  }

  /** All of a sequence but its last element, and that. */
  lemma InitLast<T>(s: seq<T>)
    requires s != []
    ensures s == s[..|s| - 1] + [s[|s| - 1]]
  {
  }

  lemma Whole<T>(s: seq<T>)
    ensures s[..|s|] == s && s[0..] == s && s[|s|..] == [] && s[..0] == []
  {
  }

  lemma InEither<T>(a: seq<T>, b: seq<T>, x: T)
    ensures x in a + b <==> x in a || x in b
  {
  }
}
