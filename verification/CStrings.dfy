/** NUL-terminated strings in fixed buffers, and the two libc comparisons used on them. */
module CStrings {

  predicate Terminated(s: seq<char>) {
    '\0' in s
  }

  /** The string a buffer holds: everything before its first NUL. */
  function CStr(s: seq<char>): (r: string)
    requires Terminated(s)
    ensures r < s && s[|r|] == '\0' && '\0' !in r
  {
    if s[0] == '\0' then [] else [s[0]] + CStr(s[1..])
  }

  /** strncmp(s, t, n) == 0 */
  predicate StrnEqual(s: seq<char>, t: seq<char>, n: nat)
    requires Terminated(s) && Terminated(t)
  {
    n == 0 || (s[0] == t[0] && (s[0] == '\0' || StrnEqual(s[1..], t[1..], n - 1)))
  }

  /** strcmp(s, t) == 0 */
  predicate StrEqual(s: seq<char>, t: seq<char>)
    requires Terminated(s) && Terminated(t)
  {
    s[0] == t[0] && (s[0] == '\0' || StrEqual(s[1..], t[1..]))
  }

  lemma {:induction false} StrnEqualMeansPrefix(name: string, t: seq<char>)
    requires '\0' !in name && Terminated(t)
    ensures StrnEqual(name + ['\0'], t, |name|) <==> name <= CStr(t)
  {
    if name != [] {
      var s := name + ['\0'];
      assert name[0] != '\0';
      if s[0] == t[0] {
        assert s[1..] == name[1..] + ['\0'];
        StrnEqualMeansPrefix(name[1..], t[1..]);
        assert CStr(t) == [t[0]] + CStr(t[1..]);
        assert name == [name[0]] + name[1..];
      } else if CStr(t) != [] {
        assert CStr(t)[0] == t[0];
      }
    }
  }

  lemma {:induction false} StrEqualMeansSame(s: seq<char>, t: seq<char>)
    requires Terminated(s) && Terminated(t)
    ensures StrEqual(s, t) <==> CStr(s) == CStr(t)
  {
    if s[0] == t[0] && s[0] != '\0' {
      StrEqualMeansSame(s[1..], t[1..]);
      assert CStr(s)[1..] == CStr(s[1..]) && CStr(t)[1..] == CStr(t[1..]);
    }
  }

  /** The first NUL settles the string. */
  lemma {:induction false} CStrUnique(s: seq<char>, r: string)
    requires r < s && s[|r|] == '\0' && '\0' !in r
    ensures Terminated(s) && CStr(s) == r
  {
    assert s[|r|] in s;
    assert |CStr(s)| == |r|;
  }

  lemma CStrDrop(s: seq<char>, n: nat)
    requires Terminated(s) && n <= |CStr(s)|
    ensures Terminated(s[n..]) && CStr(s[n..]) == CStr(s)[n..]
  {
    var r := CStr(s);
    assert s[n..][|r| - n] == s[|r|];
    CStrUnique(s[n..], r[n..]);
  }
}
