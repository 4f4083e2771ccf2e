/**
  sys/Utils/kstring.c: strings up to their terminating zero character, and the tokeniser.
 */
module Tokeniser {
  import opened Wrappers

  const NUL: char := '\0'

  // A string as the source sees it: the characters before the first zero.
  predicate Terminated(str: seq<char>) {
    NUL in str
  }

  function Text(str: seq<char>): (s: string)
    requires Terminated(str)
    ensures |s| < |str| && s == str[..|s|] && str[|s|] == NUL && NUL !in s
  {
    if str[0] == NUL then [] else [str[0]] + Text(str[1..])
  }

  method StrLen(str: seq<char>) returns (length: nat)
    requires Terminated(str)
    ensures length == |Text(str)|
  {
    length := 0;
    while str[length] != NUL
      invariant length <= |Text(str)|
      decreases |str| - length
    {
      length := length + 1;
    }
  }

  // 0 exactly when the first n characters of both are there and the same.
  method StrNCmp(s1: seq<char>, s2: seq<char>, n: nat) returns (r: int)
    requires Terminated(s1) && Terminated(s2)
    ensures r == 0 || r == -1
    ensures r == 0 <==> n <= |Text(s1)| && n <= |Text(s2)| && Text(s1)[..n] == Text(s2)[..n]
  {
    var i := 0;
    while i < n
      invariant i <= n && i <= |Text(s1)| && i <= |Text(s2)| && Text(s1)[..i] == Text(s2)[..i]
    {
      if s1[i] == NUL || s2[i] == NUL {
        return -1;
      }
      if s1[i] != s2[i] {
        assert n <= |Text(s1)| && n <= |Text(s2)| ==> Text(s1)[..n][i] != Text(s2)[..n][i];
        return -1;
      }
      i := i + 1;
    }
    return 0;
  }

  // --------------------------------------------------------------------- tokens

  // All pieces between delimiters, the empty ones included.
  function Pieces(s: string, delim: char): (p: seq<string>)
    ensures |p| > 0
  {
    if s == [] then [[]]
    else if s[0] == delim then [[]] + Pieces(s[1..], delim)
    else
      var rest := Pieces(s[1..], delim);
      [[s[0]] + rest[0]] + rest[1..]
  }

  function NonEmpty(p: seq<string>): seq<string> {
    if p == [] then [] else (if p[0] == [] then [] else [p[0]]) + NonEmpty(p[1..])
  }

  // The non-empty runs without a delimiter, in order.
  function Tokens(s: string, delim: char): seq<string> {
    NonEmpty(Pieces(s, delim))
  }

  lemma NonEmptyJoin(a: seq<string>, b: seq<string>)
    ensures NonEmpty(a + b) == NonEmpty(a) + NonEmpty(b)
  {
    if a == [] {
      assert a + b == b;
    } else {
      assert (a + b)[1..] == a[1..] + b;
    }
  }

  predicate Clean(t: string, delim: char) {
    delim !in t
  }

  // Leading delimiters do not matter.
  lemma SkipDelim(s: string, delim: char)
    requires s != [] && s[0] == delim
    ensures Tokens(s, delim) == Tokens(s[1..], delim)
  {
    NonEmptyJoin([[]], Pieces(s[1..], delim));
    assert NonEmpty([[]]) == [];
  }

  // A run comes first, as far as the delimiter behind it, or the end.
  lemma {:induction false} RunFirst(t: string, rest: string, delim: char)
    requires Clean(t, delim) && (rest == [] || rest[0] == delim)
    ensures Pieces(t + rest, delim) == [t] + (if rest == [] then [] else Pieces(rest[1..], delim))
  {
    if t == [] {
      assert t + rest == rest;
    } else {
      var more := if rest == [] then [] else Pieces(rest[1..], delim);
      assert (t + rest)[0] == t[0] && (t + rest)[1..] == t[1..] + rest;
      RunFirst(t[1..], rest, delim);
      assert Pieces(t + rest, delim) == [[t[0]] + t[1..]] + ([t[1..]] + more)[1..];
      assert [t[0]] + t[1..] == t;
    }
  }

  lemma TokenFirst(t: string, rest: string, delim: char)
    requires Clean(t, delim) && t != [] && (rest == [] || rest[0] == delim)
    ensures Tokens(t + rest, delim) == [t] + Tokens(rest, delim)
  {
    RunFirst(t, rest, delim);
    if rest == [] {
      NonEmptyJoin([t], []);
      assert NonEmpty(Pieces([], delim)) == [];
    } else {
      NonEmptyJoin([t], Pieces(rest[1..], delim));
      SkipDelim(rest, delim);
    }
  }

  lemma NoTokens(delim: char)
    ensures Tokens([], delim) == []
  {
    assert NonEmpty(Pieces([], delim)) == [];
  }

  lemma OneMore(s: string, start: nat, i: nat)
    requires start <= i < |s|
    ensures s[start..i + 1] == s[start..i] + [s[i]]
  {
  }

  // mystrtok: the first token at or behind pos, and pos behind it; without a token, pos
  // stays.
  method MyStrTok(str: seq<char>, delim: char, pos: nat) returns (token: Option<string>, next: nat)
    requires Terminated(str) && delim != NUL && pos <= |Text(str)|
    ensures token.None? ==> next == pos && Tokens(Text(str)[pos..], delim) == []
    ensures token.Some? ==>
      && pos < next <= |Text(str)|
      && token.value != [] && Clean(token.value, delim) && NUL !in token.value
      && Tokens(Text(str)[pos..], delim) == [token.value] + Tokens(Text(str)[next..], delim)
  {
    hide Tokens, Pieces, NonEmpty, Text;
    ghost var s := Text(str);
    var startFound, start, i := false, 0, pos;
    while str[i] != NUL
      invariant pos <= i <= |s|
      invariant !startFound ==> Tokens(s[pos..], delim) == Tokens(s[i..], delim)
      invariant startFound ==> pos <= start < i && Clean(s[start..i], delim) && Tokens(s[pos..], delim) == Tokens(s[start..], delim)
      decreases |s| - i
    {
      if str[i] != delim && !startFound {
        start := i;
        startFound := true;
      } else if str[i] == delim && startFound {
        break;
      } else if !startFound {
        assert s[i..][1..] == s[i + 1..];
        SkipDelim(s[i..], delim);
      }
      if startFound {
        OneMore(s, start, i);
      }
      i := i + 1;
    }
    if startFound {
      var end := i - 1;
      token := Some(str[start..end + 1]);
      next := end + 1;
      assert s[start..] == s[start..i] + s[i..];
      assert str[start..end + 1] == s[start..i];
      TokenFirst(s[start..i], s[i..], delim);
    } else {
      token, next := None, pos;
      assert s[i..] == [];
      NoTokens(delim);
    }
  }

  predicate AllTokens(ts: seq<string>, delim: char) {
    forall k :: 0 <= k < |ts| ==> ts[k] != [] && Clean(ts[k], delim)
  }

  function Join(ts: seq<string>, delim: char): string {
    if ts == [] then [] else if |ts| == 1 then ts[0] else ts[0] + [delim] + Join(ts[1..], delim)
  }

  lemma {:induction false} PiecesClean(s: string, delim: char)
    ensures forall k :: 0 <= k < |Pieces(s, delim)| ==> Clean(Pieces(s, delim)[k], delim)
  {
    if s != [] {
      PiecesClean(s[1..], delim);
    }
  }

  lemma {:induction false} NonEmptyClean(p: seq<string>, delim: char)
    requires forall k :: 0 <= k < |p| ==> Clean(p[k], delim)
    ensures AllTokens(NonEmpty(p), delim)
  {
    if p != [] {
      NonEmptyClean(p[1..], delim);
    }
  }

  lemma TokensClean(s: string, delim: char)
    ensures AllTokens(Tokens(s, delim), delim)
  {
    PiecesClean(s, delim);
    NonEmptyClean(Pieces(s, delim), delim);
  }

  lemma {:induction false} JoinTokens(ts: seq<string>, delim: char)
    requires AllTokens(ts, delim)
    ensures Tokens(Join(ts, delim), delim) == ts
  {
    hide Tokens;
    if ts == [] {
      NoTokens(delim);
    } else if |ts| == 1 {
      assert ts[0] + [] == ts[0];
      TokenFirst(ts[0], [], delim);
      NoTokens(delim);
    } else {
      var rest := [delim] + Join(ts[1..], delim);
      assert ts[0] + [delim] + Join(ts[1..], delim) == ts[0] + rest;
      TokenFirst(ts[0], rest, delim);
      assert rest[1..] == Join(ts[1..], delim);
      SkipDelim(rest, delim);
      JoinTokens(ts[1..], delim);
    }
  }

  // Joined again with one delimiter between two tokens, a string has the same tokens.
  lemma Rejoined(s: string, delim: char)
    ensures Tokens(Join(Tokens(s, delim), delim), delim) == Tokens(s, delim)
  {
    TokensClean(s, delim);
    JoinTokens(Tokens(s, delim), delim);
  }

  // The copy of a string into a buffer that has room for it.
  method CopyText(str: seq<char>, buffer: array<char>)
    requires Terminated(str) && |Text(str)| < buffer.Length
    modifies buffer
    ensures buffer[..|Text(str)|] == Text(str) && buffer[|Text(str)|] == NUL
    ensures Terminated(buffer[..]) && Text(buffer[..]) == Text(str)
  {
    var j := 0;
    while str[j] != NUL
      invariant j <= |Text(str)| && buffer[..j] == Text(str)[..j]
      decreases |str| - j
    {
      buffer[j] := str[j];
      j := j + 1;
    }
    buffer[j] := NUL;
    assert buffer[..j] == Text(str);
    TextIs(buffer[..], Text(str));
  }

  lemma TextIs(str: seq<char>, s: string)
    requires |s| < |str| && str[..|s|] == s && str[|s|] == NUL && NUL !in s
    ensures Terminated(str) && Text(str) == s
  {
  }

  // SplitString: the tokens, then a null pointer, and their number; within its two buffers.
  method SplitString(strCopy: seq<char>) returns (vector: array<Option<string>>, vecCount: int)
    requires Terminated(strCopy) && |Text(strCopy)| < 1024 && |Tokens(Text(strCopy), ' ')| < 20
    ensures vecCount == |Tokens(Text(strCopy), ' ')| < vector.Length == 20
    ensures forall k :: 0 <= k < vecCount ==> vector[k] == Some(Tokens(Text(strCopy), ' ')[k])
    ensures vector[vecCount] == None
  {
    hide Tokens, Text, Clean;
    var buffer := new char[1024];
    CopyText(strCopy, buffer);
    var str := buffer[..];
    ghost var s, all := Text(str), Tokens(Text(str), ' ');
    vector := new Option<string>[20](_ => None);
    vecCount := 0;
    var i: nat, pos: nat := 0, 0;
    assert s[0..] == s;
    var token;
    token, pos := MyStrTok(str, ' ', pos);
    vector[i] := token;
    i := i + 1;
    vecCount := vecCount + 1;
    while token != None
      invariant pos <= |s| && 1 <= i <= |all| + 1 && vecCount == i && vector[i - 1] == token
      invariant forall k :: 0 <= k < i - 1 ==> k < |all| && vector[k] == Some(all[k])
      invariant token.Some? ==> i <= |all| && token.value == all[i - 1] && Tokens(s[pos..], ' ') == all[i..]
      invariant token.None? ==> i == |all| + 1
      decreases |all| + 1 - i
    {
      token, pos := MyStrTok(str, ' ', pos);
      assert token.Some? ==> all[i..][0] == token.value && all[i..][1..] == all[i + 1..];
      vector[i] := token;
      i := i + 1;
      vecCount := vecCount + 1;
    }
    vecCount := vecCount - 1;
  }
}
