/** Small helpers shared by every component: an optional value, JavaScript's
    notion of white space and `String.prototype.trim`, and the
    "filter out the record with this id" step that every list view uses. */
module Common {

  datatype Option<T> = None | Some(value: T)

  function Max(a: int, b: int): (m: int)
    ensures m >= a && m >= b && (m == a || m == b)
  {
    if a >= b then a else b
  }

  /** The characters JavaScript's `trim` removes: the WhiteSpace and
      LineTerminator productions of ECMAScript (tab, vertical tab, form feed,
      space, no-break space, byte order mark, the Zs category, LF, CR, LS, PS). */
  predicate IsWhitespace(c: char)
  {
    || c == '\t' || c == '\n' || c == '\U{B}' || c == '\U{C}' || c == '\r'
    || c == ' ' || c == '\U{A0}' || c == '\U{1680}'
    || ('\U{2000}' <= c <= '\U{200A}')
    || c == '\U{2028}' || c == '\U{2029}' || c == '\U{202F}' || c == '\U{205F}'
    || c == '\U{3000}' || c == '\U{FEFF}'
  }

  /** A text field counts as empty when nothing but white space is in it. */
  predicate IsBlank(s: string)
  {
    forall i :: 0 <= i < |s| ==> IsWhitespace(s[i])
  }

  /** How many characters of white space `s` starts with. */
  function LeadingSpace(s: string): (n: nat)
    ensures n <= |s| && IsBlank(s[..n])
    ensures n < |s| ==> !IsWhitespace(s[n])
  {
    if |s| > 0 && IsWhitespace(s[0]) then
      var n := 1 + LeadingSpace(s[1..]);
      assert forall k :: 1 <= k < n ==> s[..n][k] == s[1..][..n - 1][k - 1];
      n
    else 0
  }

  /** Where the white space that `s` ends with begins. */
  function TrailingSpace(s: string): (m: nat)
    ensures m <= |s| && IsBlank(s[m..])
    ensures m > 0 ==> !IsWhitespace(s[m - 1])
  {
    if |s| > 0 && IsWhitespace(s[|s| - 1]) then
      var m := TrailingSpace(s[..|s| - 1]);
      assert forall k :: 0 <= k < |s| - 1 - m ==> s[m..][k] == s[..|s| - 1][m..][k];
      m
    else |s|
  }

  /** Every character from a blank suffix onwards is white space. */
  lemma BlankFrom(s: string, b: nat)
    requires b <= |s| && IsBlank(s[b..])
    ensures forall k :: b <= k < |s| ==> IsWhitespace(s[k])
  {
    forall k | b <= k < |s| ensures IsWhitespace(s[k]) {
      assert s[b..][k - b] == s[k];
    }
  }

  /** JavaScript's `trim`: the middle part of `s` left once the white space at
      both ends is cut off. */
  function Trim(s: string): (r: string)
    ensures |r| <= |s|
    ensures exists a, b :: 0 <= a <= b <= |s| && r == s[a..b] && IsBlank(s[..a]) && IsBlank(s[b..])
    ensures r != [] ==> !IsWhitespace(r[0]) && !IsWhitespace(r[|r| - 1])
    ensures r == [] <==> IsBlank(s)
  {
    var a := LeadingSpace(s);
    var b := TrailingSpace(s);
    if a == |s| then
      assert s[..a] == s;
      assert s[..a] == s[..a][..a] && s[a..] == [];
      []
    else
      assert s[a] == s[..a + 1][a];
      BlankFrom(s, b);
      assert s[a..b][0] == s[a] && s[a..b][b - a - 1] == s[b - 1];
      s[a..b]
  }

  /** Trimming twice is trimming once. */
  lemma TrimIdempotent(s: string)
    ensures Trim(Trim(s)) == Trim(s)
  {
    var r := Trim(s);
    if r != [] {
      assert LeadingSpace(r) == 0;
      assert TrailingSpace(r) == |r|;
      assert r[0..|r|] == r;
    }
  }

  /** `list.filter(x => key(x) !== id)`: drops every record whose id is `id`
      and keeps the others. */
  function WithoutKey<T(==)>(s: seq<T>, key: T -> string, id: string): (r: seq<T>)
    ensures |r| <= |s|
    ensures forall i :: 0 <= i < |r| ==> r[i] in s && key(r[i]) != id
    ensures forall i :: 0 <= i < |s| && key(s[i]) != id ==> s[i] in r
    ensures (forall i :: 0 <= i < |s| ==> key(s[i]) != id) ==> r == s
  {
    if s == [] then []
    else if key(s[0]) != id then [s[0]] + WithoutKey(s[1..], key, id)
    else WithoutKey(s[1..], key, id)
  }

  /** The filter keeps the relative order of what it keeps: filtering a
      concatenation is concatenating the filtered parts. */
  lemma {:induction false} WithoutKeyConcat<T>(a: seq<T>, b: seq<T>, key: T -> string, id: string)
    ensures WithoutKey(a + b, key, id) == WithoutKey(a, key, id) + WithoutKey(b, key, id)
  {
    if a == [] {
      assert a + b == b;
    } else {
      assert (a + b)[0] == a[0] && (a + b)[1..] == a[1..] + b;
      WithoutKeyConcat(a[1..], b, key, id);
    }
  }
}
