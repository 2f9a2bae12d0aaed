// Concatenation, for the proofs that regroup long texts.
module SeqLaws {

  lemma Assoc<T>(a: seq<T>, b: seq<T>, c: seq<T>)
    ensures a + b + c == a + (b + c)
  {
  }

  lemma ConsAppend<T>(x: T, s: seq<T>, t: seq<T>)
    ensures [x] + s + t == [x] + (s + t)
  {
  }

  lemma NoneBefore<T>(b: seq<T>, c: seq<T>)
    ensures [] + b + c == b + c
  {
  }

  lemma PrefixStep<T>(s: seq<T>, k: nat)
    requires k < |s|
    ensures s[..k + 1] == s[..k] + [s[k]]
  {
  }

  lemma WholePrefix<T>(s: seq<T>)
    ensures s[..|s|] == s
  {
  }
}
