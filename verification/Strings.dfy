/** Slices (pointer and length) compared with slices and with NUL-terminated strings. */
module Strings {

  /** The string stored at the start of mem. */
  function CString(mem: seq<char>): (s: seq<char>)
    requires '\0' in mem
    ensures '\0' !in s && |s| < |mem| && mem[..|s|] == s && mem[|s|] == '\0'
  {
    if mem[0] == '\0' then [] else [mem[0]] + CString(mem[1..])
  }

  function Terminated(s: seq<char>): seq<char> {
    s + ['\0']
  }

  lemma {:induction false} CStringOfTerminated(s: seq<char>)
    requires '\0' !in s
    ensures '\0' in Terminated(s) && CString(Terminated(s)) == s
  {
    assert Terminated(s)[|s|] == '\0';
    var t := CString(Terminated(s));
    assert forall i :: 0 <= i < |s| ==> Terminated(s)[i] == s[i] != '\0';
    assert |t| == |s|;
  }

  method StringAreEqual(s1: seq<char>, s2: seq<char>) returns (equal: bool)
    ensures equal <==> s1 == s2
  {
    if |s1| == |s2| {
      for i := 0 to |s1|
        invariant s1[..i] == s2[..i]
      {
        if s1[i] != s2[i] {
          return false;
        }
      }
      assert s1 == s1[..|s1|] && s2 == s2[..|s2|];
      return true;
    } else {
      return false;
    }
  }

  method StringIsEqualTo(s1: seq<char>, s2: seq<char>) returns (equal: bool)
    requires '\0' in s2
    ensures equal <==> s1 == CString(s2)
  {
    var c := CString(s2);
    var i, cursor := 0, 0;
    while i < |s1| && s2[cursor] != '\0'
      invariant i == cursor <= |c| && i <= |s1| && s1[..i] == c[..i]
    {
      assert cursor < |c| && s2[cursor] == c[cursor];
      if s1[i] != s2[cursor] {
        return false;
      }
      i, cursor := i + 1, cursor + 1;
    }
    assert s1[..|s1|] == s1 && c[..|c|] == c;
    assert s2[cursor] == '\0' <==> cursor == |c| by {
      if cursor < |c| {
        assert s2[cursor] == c[cursor];
      }
    }
    return i == |s1| && s2[cursor] == '\0';
  }
}
