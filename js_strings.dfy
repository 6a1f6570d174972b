/** The string operations of JavaScript that the models rely on, on `seq<char>`:
    `toLowerCase` (on ASCII letters), `includes`, `trim`, `split` and `join` with a
    one-character separator, and decimal printing of integers. */
module JsStrings {

  // ---------------------------------------------------------------------------
  // Case

  /** `toLowerCase` on one character: ASCII upper-case letters map to lower case. */
  function Lower(c: char): (r: char)
    ensures 'A' <= c <= 'Z' ==> r as int == c as int + 32
    ensures !('A' <= c <= 'Z') ==> r == c
  {
    if 'A' <= c <= 'Z' then (c as int + 32) as char else c
  }

  function LowerStr(s: string): (r: string)
    ensures |r| == |s|
    ensures forall i :: 0 <= i < |s| ==> r[i] == Lower(s[i])
  {
    seq(|s|, i requires 0 <= i < |s| => Lower(s[i]))
  }

  lemma LowerIdempotent(c: char)
    ensures Lower(Lower(c)) == Lower(c)
  {
  }

  /** Lowercasing twice is lowercasing once. */
  lemma LowerStrIdempotent(s: string)
    ensures LowerStr(LowerStr(s)) == LowerStr(s)
  {
    forall i | 0 <= i < |s|
      ensures LowerStr(LowerStr(s))[i] == LowerStr(s)[i]
    {
      LowerIdempotent(s[i]);
    }
  }

  // ---------------------------------------------------------------------------
  // Substrings

  predicate StartsWith(s: string, t: string)
  {
    |t| <= |s| && s[..|t|] == t
  }

  /** `s.includes(t)`: `t` occurs in `s` at some position. */
  predicate Includes(s: string, t: string)
    decreases |s|
  {
    StartsWith(s, t) || (|s| > 0 && Includes(s[1..], t))
  }

  /** `includes` agrees with "there is a position where `t` starts". */
  lemma {:induction false} IncludesAt(s: string, t: string)
    ensures Includes(s, t) <==> exists i :: 0 <= i <= |s| - |t| && StartsWith(s[i..], t)
    decreases |s|
  {
    if Includes(s, t) {
      if StartsWith(s, t) {
        assert s[0..] == s;
      } else {
        IncludesAt(s[1..], t);
        var i :| 0 <= i <= |s[1..]| - |t| && StartsWith(s[1..][i..], t);
        assert s[1..][i..] == s[i + 1..];
      }
    }
    if i :| 0 <= i <= |s| - |t| && StartsWith(s[i..], t) {
      if i == 0 {
        assert s[0..] == s;
      } else {
        assert s[1..][i - 1..] == s[i..];
        IncludesAt(s[1..], t);
      }
    }
  }

  /** Every string includes the empty string. */
  lemma IncludesEmpty(s: string)
    ensures Includes(s, "")
  {
    assert StartsWith(s, "");
  }

  // ---------------------------------------------------------------------------
  // Trimming

  /** The white-space and line-terminator characters that `trim` removes
      (the ASCII ones and the common Unicode ones). */
  predicate IsSpace(c: char)
  {
    c == ' ' || c == '\t' || c == '\n' || c == '\r' || c == '\U{000B}' || c == '\U{000C}'
    || c == '\U{00A0}' || c == '\U{FEFF}' || c == '\U{2028}' || c == '\U{2029}'
  }

  function TrimStart(s: string): (r: string)
    ensures |r| <= |s| && r == s[|s| - |r|..]
    ensures forall i :: 0 <= i < |s| - |r| ==> IsSpace(s[i])
    ensures |r| > 0 ==> !IsSpace(r[0])
  {
    if |s| > 0 && IsSpace(s[0]) then TrimStart(s[1..]) else s
  }

  function TrimEnd(s: string): (r: string)
    ensures |r| <= |s| && r == s[..|r|]
    ensures forall i :: |r| <= i < |s| ==> IsSpace(s[i])
    ensures |r| > 0 ==> !IsSpace(r[|r| - 1])
  {
    if |s| > 0 && IsSpace(s[|s| - 1]) then TrimEnd(s[..|s| - 1]) else s
  }

  /** `s.trim()`: `s` without its leading and trailing white space. */
  function Trim(s: string): (r: string)
  {
    TrimEnd(TrimStart(s))
  }

  /** The trimmed string is the infix of `s` that starts and ends with a
      non-space character; only spaces were removed around it. */
  lemma TrimIsInfix(s: string)
    ensures exists i, j :: (0 <= i <= j <= |s| && Trim(s) == s[i..j]
      && (forall k :: 0 <= k < i ==> IsSpace(s[k]))
      && (forall k :: j <= k < |s| ==> IsSpace(s[k])))
    ensures |Trim(s)| > 0 ==> !IsSpace(Trim(s)[0]) && !IsSpace(Trim(s)[|Trim(s)| - 1])
  {
    var i, j := TrimBounds(s);
  }

  /** Where the trimmed string starts and ends in `s`. */
  lemma TrimBounds(s: string) returns (i: nat, j: nat)
    ensures i <= j <= |s| && Trim(s) == s[i..j]
    ensures forall k :: 0 <= k < i ==> IsSpace(s[k])
    ensures forall k :: j <= k < |s| ==> IsSpace(s[k])
    ensures |Trim(s)| > 0 ==> !IsSpace(Trim(s)[0]) && !IsSpace(Trim(s)[|Trim(s)| - 1])
  {
    var a := TrimStart(s);
    var b := TrimEnd(a);
    i := |s| - |a|;
    j := i + |b|;
    assert b == s[i..j];
    forall k | j <= k < |s|
      ensures IsSpace(s[k])
    {
      assert s[k] == a[k - i];
    }
  }

  /** Trimming a string without surrounding white space changes nothing. */
  lemma TrimUnchanged(s: string)
    requires |s| > 0 ==> !IsSpace(s[0]) && !IsSpace(s[|s| - 1])
    ensures Trim(s) == s
  {
  }

  // ---------------------------------------------------------------------------
  // Splitting and joining on one character

  /** Position of the first `c` in `s`, or `|s|` when there is none. */
  function IndexOf(s: string, c: char): (i: nat)
    ensures i <= |s|
    ensures i < |s| ==> s[i] == c
    ensures forall k :: 0 <= k < i ==> s[k] != c
  {
    if |s| == 0 || s[0] == c then 0 else 1 + IndexOf(s[1..], c)
  }

  /** `s.split(c)` for a one-character separator: the pieces between the
      occurrences of `c`; there is always at least one piece. */
  function Split(s: string, c: char): (parts: seq<string>)
    ensures |parts| >= 1
    ensures forall k :: 0 <= k < |parts| ==> c !in parts[k]
    decreases |s|
  {
    var i := IndexOf(s, c);
    if i == |s| then [s] else [s[..i]] + Split(s[i + 1..], c)
  }

  /** `parts.join(c)`. */
  function Join(parts: seq<string>, c: char): string
  {
    if |parts| == 0 then ""
    else if |parts| == 1 then parts[0]
    else parts[0] + [c] + Join(parts[1..], c)
  }

  /** `parts.join(sep)` for a separator of any length. */
  function JoinWith(parts: seq<string>, sep: string): string
  {
    if |parts| == 0 then ""
    else if |parts| == 1 then parts[0]
    else parts[0] + sep + JoinWith(parts[1..], sep)
  }

  /** Joining the pieces again gives back the split string. */
  lemma {:induction false} JoinSplit(s: string, c: char)
    ensures Join(Split(s, c), c) == s
    decreases |s|
  {
    var i := IndexOf(s, c);
    SplitAtFirst(s, c);
    if i < |s| {
      var parts := Split(s, c);
      var rest := Split(s[i + 1..], c);
      JoinSplit(s[i + 1..], c);
      assert |parts| >= 2 && parts[0] == s[..i] && parts[1..] == rest;
      assert Join(parts, c) == s[..i] + [c] + Join(rest, c);
      assert s == s[..i] + [c] + s[i + 1..];
    }
  }

  /** One step of `Split` at the first `c`. */
  lemma SplitUnfold(s: string, c: char, i: nat)
    requires i == IndexOf(s, c) && i < |s|
    ensures Split(s, c) == [s[..i]] + Split(s[i + 1..], c)
  {
  }

  /** The first piece is the text before the first `c`, and the other pieces
      are the split of the text after it. */
  lemma SplitAtFirst(s: string, c: char)
    ensures var i := IndexOf(s, c);
      (i == |s| ==> Split(s, c) == [s])
      && (i < |s| ==> Split(s, c)[0] == s[..i] && Split(s, c)[1..] == Split(s[i + 1..], c))
  {
    var i := IndexOf(s, c);
    if i < |s| {
      SplitUnfold(s, c, i);
      HeadTail(s[..i], Split(s[i + 1..], c));
    }
  }

  /** The head and the tail of a sequence built by prepending. */
  lemma HeadTail<T>(h: T, t: seq<T>)
    ensures ([h] + t)[0] == h && ([h] + t)[1..] == t
  {
  }

  /** The second piece is the text between the first and the second `c`. */
  lemma SplitSecondPiece(s: string, c: char)
    ensures var i := IndexOf(s, c);
      Split(s, c)[0] == s[..i]
      && (|Split(s, c)| > 1 <==> i < |s|)
      && (i < |s| ==> Split(s, c)[1] == s[i + 1..][..IndexOf(s[i + 1..], c)])
  {
    SplitAtFirst(s, c);
    var i := IndexOf(s, c);
    if i < |s| {
      SplitAtFirst(s[i + 1..], c);
    }
  }

  /** Splitting pieces that were joined gives the pieces back, provided no
      piece contains the separator. */
  lemma {:induction false} SplitJoin(parts: seq<string>, c: char)
    requires |parts| >= 1
    requires forall k :: 0 <= k < |parts| ==> c !in parts[k]
    ensures Split(Join(parts, c), c) == parts
  {
    if |parts| == 1 {
      IndexOfAbsent(parts[0], c);
    } else {
      var s := Join(parts, c);
      SplitJoin(parts[1..], c);
      IndexOfAfter(parts[0], Join(parts[1..], c), c);
      assert s[..|parts[0]|] == parts[0];
      assert s[|parts[0]| + 1..] == Join(parts[1..], c);
    }
  }

  lemma IndexOfAbsent(s: string, c: char)
    requires c !in s
    ensures IndexOf(s, c) == |s|
  {
  }

  lemma IndexOfAfter(a: string, b: string, c: char)
    requires c !in a
    ensures IndexOf(a + [c] + b, c) == |a|
  {
    var s := a + [c] + b;
    var i := IndexOf(s, c);
    assert s[|a|] == c;
  }

  // ---------------------------------------------------------------------------
  // Decimal printing

  function Digit(d: nat): char
    requires d < 10
  {
    "0123456789"[d]
  }

  /** `String(n)` for a non-negative integer. */
  function NatToString(n: nat): (r: string)
    ensures |r| >= 1
    ensures forall k :: 0 <= k < |r| ==> '0' <= r[k] <= '9'
  {
    if n < 10 then [Digit(n)] else NatToString(n / 10) + [Digit(n % 10)]
  }

  /** `String(n)` for an integer. */
  function IntToString(n: int): string
  {
    if n < 0 then "-" + NatToString(-n) else NatToString(n)
  }
}
