/** The entity tag: modification time and path printed into 100 bytes. */
module ETags {
  import opened Common
  import opened Decimal

  const ETAG_SIZE: nat := 100

  function FullTag(modified: int, path: seq<char>): seq<char> {
    SignedDigits(modified) + path
  }

  /** The string snprintf(etag, 100, "%ld%.*s", ...) leaves. */
  function Etag(modified: int, path: seq<char>): (tag: seq<char>)
    ensures tag != []
    ensures |SignedDigits(modified) + path| < ETAG_SIZE ==> tag == SignedDigits(modified) + path
    ensures |SignedDigits(modified) + path| >= ETAG_SIZE ==> tag == (SignedDigits(modified) + path)[..99]
    ensures Snprintf(ETAG_SIZE, FullTag(modified, path)) == tag + ['\0']
  {
    FullTag(modified, path)[..Min(ETAG_SIZE - 1, |FullTag(modified, path)|)]
  }

  predicate Untruncated(modified: int, path: seq<char>) {
    |FullTag(modified, path)| < ETAG_SIZE
  }

  /**
   Two tags agree exactly when time and path agree, or when both are long and agree in their first 99 characters;
   for paths that start with a slash.
   */
  lemma EtagsAgreeIff(m1: int, p1: seq<char>, m2: int, p2: seq<char>)
    requires p1 != [] && p1[0] == '/' && p2 != [] && p2[0] == '/'
    ensures Etag(m1, p1) == Etag(m2, p2) <==>
      (m1 == m2 && p1 == p2)
      || (|FullTag(m1, p1)| >= 99 && |FullTag(m2, p2)| >= 99 && FullTag(m1, p1)[..99] == FullTag(m2, p2)[..99])
  {
    if Etag(m1, p1) == Etag(m2, p2) && |FullTag(m1, p1)| < 99 {
      assert FullTag(m1, p1) == Etag(m1, p1);
      assert |FullTag(m2, p2)| < 99;
      assert FullTag(m2, p2) == Etag(m2, p2);
      SignedPrefixInjective(m1, m2, p1, p2);
    }
  }

  /** Untruncated tags identify time and path. */
  lemma EtagIdentifies(m1: int, p1: seq<char>, m2: int, p2: seq<char>)
    requires p1 != [] && p1[0] == '/' && p2 != [] && p2[0] == '/'
    requires Untruncated(m1, p1) && Untruncated(m2, p2)
    ensures Etag(m1, p1) == Etag(m2, p2) <==> m1 == m2 && p1 == p2
  {
    if Etag(m1, p1) == Etag(m2, p2) {
      assert FullTag(m1, p1) == Etag(m1, p1) && FullTag(m2, p2) == Etag(m2, p2);
      SignedPrefixInjective(m1, m2, p1, p2);
    }
  }

  /** Truncated tags do not: two long paths of one directory share theirs. */
  lemma LongPathsShareEtag() returns (p1: seq<char>, p2: seq<char>)
    ensures p1 != p2 && |p1| == |p2| == 100 && p1[0] == p2[0] == '/' && Etag(0, p1) == Etag(0, p2)
  {
    var prefix := seq(98, _ => 'a');
    p1, p2 := "/" + prefix + "x", "/" + prefix + "y";
    assert p1[99] == 'x' && p2[99] == 'y';
    assert p1[..98] == p2[..98];
    assert SignedDigits(0) == "0";
    assert FullTag(0, p1)[..99] == "0" + p1[..98] && FullTag(0, p2)[..99] == "0" + p2[..98];
  }
}
