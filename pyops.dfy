/** The Python operators the query engine applies to document values: `==`, `in`, the ordering
    comparisons, `str.strip()` and the splitting of dotted keys. Where Python raises a
    TypeError the operator returns `Err(TypeError)`. */
module PyOps {
  import opened Values

  /** `int` and `bool` compare as numbers in Python (`True == 1`). */
  predicate IsNumber(v: Value) {
    v.Int? || v.Bool?
  }

  function Num(v: Value): int
    requires IsNumber(v)
  {
    if v.Int? then v.i else if v.b then 1 else 0
  }

  function Sign(x: int): (r: int)
    ensures r == -1 || r == 0 || r == 1
    ensures (r < 0 <==> x < 0) && (r > 0 <==> x > 0)
  {
    if x < 0 then -1 else if x > 0 then 1 else 0
  }

  /** `a == b`: numbers by value, strings and None by identity of content, lists element by
      element, dicts key by key regardless of order. */
  predicate PyEq(a: Value, b: Value) {
    if IsNumber(a) && IsNumber(b) then Num(a) == Num(b)
    else match (a, b)
      case (Str(x), Str(y)) => x == y
      case (Null, Null) => true
      case (List(xs), List(ys)) => |xs| == |ys| && forall i :: 0 <= i < |xs| ==> PyEq(xs[i], ys[i])
      case (Dict(xs), Dict(ys)) =>
        |xs| == |ys| &&
        forall i :: 0 <= i < |xs| ==>
          exists j :: 0 <= j < |ys| && ys[j].key == xs[i].key && PyEq(xs[i].val, ys[j].val)
      case _ => false
  }

  /** `x` occurs in `s` as a contiguous substring (Python's `x in s` on strings). */
  predicate IsSubstring(x: string, s: string) {
    x <= s || (s != [] && IsSubstring(x, s[1..]))
  }

  /** Some element of `items` equals `x`. */
  predicate AnyEq(x: Value, items: seq<Value>) {
    exists i :: 0 <= i < |items| && PyEq(x, items[i])
  }

  /** `x in c` */
  function PyIn(x: Value, c: Value): (r: Result<bool>)
    ensures c.List? ==> r == Ok(AnyEq(x, c.items))
    ensures r.Err? <==> match c
                        case List(_) => false
                        case Str(_) => !x.Str?
                        case Dict(_) => x.List? || x.Dict?
                        case _ => true
  {
    match c
    case List(items) => Ok(AnyEq(x, items))
    case Str(s) => if x.Str? then Ok(IsSubstring(x.s, s)) else Err(TypeError)
    // dict keys are strings; an unhashable operand raises before any comparison
    case Dict(es) => if x.List? || x.Dict? then Err(TypeError) else Ok(x.Str? && HasKey(es, x.s))
    case _ => Err(TypeError)
  }

  /** Python's ordering of two strings: code point by code point, a proper prefix first. */
  function StrCmp(a: string, b: string): (r: int)
    ensures r == -1 || r == 0 || r == 1
  {
    if a == [] && b == [] then 0
    else if a == [] then -1
    else if b == [] then 1
    else if a[0] < b[0] then -1
    else if a[0] > b[0] then 1
    else StrCmp(a[1..], b[1..])
  }

  /** The three-way outcome of Python's `<`/`>` on two values: -1, 0 or 1, or the TypeError
      Python raises for values it cannot order (None, dicts, a number against a string). Lists
      are ordered by their first unequal elements, then by length. */
  function PyCompare(a: Value, b: Value): (r: Result<int>)
    ensures r.Ok? ==> r.value == -1 || r.value == 0 || r.value == 1
  {
    if IsNumber(a) && IsNumber(b) then Ok(Sign(Num(a) - Num(b)))
    else match (a, b)
      case (Str(x), Str(y)) => Ok(StrCmp(x, y))
      case (List(xs), List(ys)) => ListCompare(xs, ys)
      case _ => Err(TypeError)
  }

  function ListCompare(xs: seq<Value>, ys: seq<Value>): (r: Result<int>)
    ensures r.Ok? ==> r.value == -1 || r.value == 0 || r.value == 1
  {
    if xs == [] || ys == [] then Ok(Sign(|xs| - |ys|))
    else if PyEq(xs[0], ys[0]) then ListCompare(xs[1..], ys[1..])
    else PyCompare(xs[0], ys[0])
  }

  /** Numbers against numbers and strings against strings: the pairs `cmp` can order. */
  predicate Orderable(a: Value, b: Value) {
    (IsNumber(a) && IsNumber(b)) || (a.Str? && b.Str?)
  }

  // ---------------------------------------------------------------------------
  // Laws of string ordering, used to show that the local sort's comparator is a total
  // preorder.
  // ---------------------------------------------------------------------------

  lemma {:induction false} StrCmpZero(a: string, b: string)
    ensures StrCmp(a, b) == 0 <==> a == b
  {
    if a != [] && b != [] && a[0] == b[0] {
      StrCmpZero(a[1..], b[1..]);
      assert a == [a[0]] + a[1..] && b == [b[0]] + b[1..];
    }
  }

  lemma {:induction false} StrCmpAntisymmetric(a: string, b: string)
    ensures StrCmp(a, b) == -StrCmp(b, a)
  {
    if a != [] && b != [] && a[0] == b[0] {
      StrCmpAntisymmetric(a[1..], b[1..]);
    }
  }

  lemma {:induction false} StrCmpTransitive(a: string, b: string, c: string)
    requires StrCmp(a, b) <= 0 && StrCmp(b, c) <= 0
    ensures StrCmp(a, c) <= 0
  {
    if a != [] && b != [] && c != [] && a[0] == b[0] && b[0] == c[0] {
      StrCmpTransitive(a[1..], b[1..], c[1..]);
    }
  }

  // ---------------------------------------------------------------------------
  // Strings: `str.strip()`, `"." in key` and `key.split(".", 1)`.
  // ---------------------------------------------------------------------------

  /** Python's `str.isspace()` for one character. */
  predicate IsSpace(c: char) {
    ('\t' <= c <= '\r') || ('\U{1c}' <= c <= '\U{1f}') || c == ' ' || c == '\U{85}' || c == '\U{a0}'
    || c == '\U{1680}' || ('\U{2000}' <= c <= '\U{200a}') || c == '\U{2028}' || c == '\U{2029}'
    || c == '\U{202f}' || c == '\U{205f}' || c == '\U{3000}'
  }

  /** `s.lstrip()`: the leading white space is removed, and only that. */
  function StripLeft(s: string): (r: string)
    ensures exists i :: 0 <= i <= |s| && r == s[i..] && forall j :: 0 <= j < i ==> IsSpace(s[j])
    ensures r == [] || !IsSpace(r[0])
  {
    if s != [] && IsSpace(s[0]) then
      var r := StripLeft(s[1..]);
      var i :| 0 <= i <= |s[1..]| && r == s[1..][i..] && forall j :: 0 <= j < i ==> IsSpace(s[1..][j]);
      assert r == s[i + 1..];
      assert forall j :: 0 <= j < i + 1 ==> IsSpace(s[j]) by {
        forall j | 0 < j < i + 1 ensures IsSpace(s[j]) { assert s[j] == s[1..][j - 1]; }
      }
      r
    else
      assert s == s[0..];
      s
  }

  /** `s.rstrip()`: the trailing white space is removed, and only that. */
  function StripRight(s: string): (r: string)
    ensures exists i :: 0 <= i <= |s| && r == s[..i] && forall j :: i <= j < |s| ==> IsSpace(s[j])
    ensures r == [] || !IsSpace(r[|r| - 1])
  {
    if s != [] && IsSpace(s[|s| - 1]) then
      var t := s[..|s| - 1];
      var r := StripRight(t);
      var i :| 0 <= i <= |t| && r == t[..i] && forall j :: i <= j < |t| ==> IsSpace(t[j]);
      assert r == s[..i];
      assert forall j :: i <= j < |s| ==> IsSpace(s[j]) by {
        forall j | i <= j < |s| ensures IsSpace(s[j]) {
          if j < |t| { assert s[j] == t[j]; }
        }
      }
      r
    else
      assert s == s[..|s|];
      s
  }

  /** `s.strip()` */
  function Strip(s: string): string {
    StripRight(StripLeft(s))
  }

  /** `"." in key` */
  predicate HasDot(key: string) {
    '.' in key
  }

  /** The position of the first `.` in `key`. */
  function DotIndex(key: string): (i: nat)
    requires HasDot(key)
    ensures i < |key| && key[i] == '.' && '.' !in key[..i]
  {
    if key[0] == '.' then 0 else 1 + DotIndex(key[1..])
  }

  /** `key.split(".", 1)`: the text before the first dot and the text after it. */
  function SplitFirst(key: string): (parts: (string, string))
    requires HasDot(key)
    ensures key == parts.0 + "." + parts.1
    ensures !HasDot(parts.0)
  {
    var i := DotIndex(key);
    assert key == key[..i] + "." + key[i + 1..];
    (key[..i], key[i + 1..])
  }

  /** The text of `key` after its last dot: the name the projection stores a dotted field by. */
  function LastSegment(key: string): (r: string)
    ensures !HasDot(r)
    decreases |key|
  {
    if HasDot(key) then LastSegment(SplitFirst(key).1) else key
  }
}
