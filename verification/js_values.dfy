/** JavaScript value semantics the store front-end relies on, given a precise
    meaning over Dafny values: optional values, truthiness of the `||`
    operator, "maybe an array" fields, `String.prototype.trim` and ASCII
    lower-casing. */
module JsValues {

  /** A value that may be `undefined`/`null`. */
  datatype Option<+T> = None | Some(value: T) {

    /** `this ?? default`: only a missing value is replaced. */
    function GetOr(default: T): T {
      match this
      case Some(v) => v
      case None => default
    }
  }

  /** A string is truthy exactly when it is present and non-empty. */
  predicate TruthyStr(s: Option<string>) {
    s.Some? && s.value != ""
  }

  /** A number is truthy exactly when it is present and non-zero (NaN is not modelled). */
  predicate TruthyNum(n: Option<int>) {
    n.Some? && n.value != 0
  }

  /** `s || d` where the result is a string. */
  function StrOr(s: Option<string>, d: string): string {
    if TruthyStr(s) then s.value else d
  }

  /** `s || null` where the result is a nullable string. */
  function StrOrNull(s: Option<string>): Option<string> {
    if TruthyStr(s) then s else None
  }

  /** `n || d` where the result is a number. */
  function NumOr(n: Option<int>, d: int): int {
    if TruthyNum(n) then n.value else d
  }

  /** `n || null` where the result is a nullable number. */
  function NumOrNull(n: Option<int>): Option<int> {
    if TruthyNum(n) then n else None
  }

  /** `b || d` where the result is a boolean. */
  function BoolOr(b: Option<bool>, d: bool): bool {
    if b.Some? && b.value then true else d
  }

  /** A field typed `any` or `string[] | null` that the source probes with
      `Array.isArray`: missing, some other (truthy or falsy) value, or an
      array of strings. */
  datatype JsList = Null | NonArray(truthy: bool) | Array(items: seq<string>)

  /** Truthiness of such a field: every array, even an empty one, is truthy. */
  predicate TruthyList(l: JsList) {
    l.Array? || (l.NonArray? && l.truthy)
  }

  /** `l || d` on such a field. */
  function ListOr(l: Option<JsList>, d: JsList): JsList {
    if l.Some? && TruthyList(l.value) then l.value else d
  }

  /** `Array.isArray(l) ? l : []`. */
  function ItemsOrEmpty(l: JsList): seq<string> {
    if l.Array? then l.items else []
  }

  /** The characters `String.prototype.trim` removes: the WhiteSpace and
      LineTerminator productions of ECMAScript (every Zs space separator,
      tab, vertical tab, form feed, byte-order mark, line feed, carriage
      return, line and paragraph separators). */
  predicate IsJsSpace(c: char) {
    || c == '\t' || c == '\n' || c == '\U{B}' || c == '\U{C}' || c == '\r'
    || c == ' ' || c == '\U{A0}' || c == '\U{1680}'
    || ('\U{2000}' <= c <= '\U{200A}')
    || c == '\U{2028}' || c == '\U{2029}' || c == '\U{202F}' || c == '\U{205F}'
    || c == '\U{3000}' || c == '\U{FEFF}'
  }

  /** The index of the first character at or after `k` that is not white space. */
  function SpacesUntil(s: string, k: nat): (n: nat)
    requires k <= |s|
    ensures k <= n <= |s|
    ensures forall i :: k <= i < n ==> IsJsSpace(s[i])
    ensures n < |s| ==> !IsJsSpace(s[n])
    decreases |s| - k
  {
    if k < |s| && IsJsSpace(s[k]) then SpacesUntil(s, k + 1) else k
  }

  /** The index just after the last character before `k` that is not white space. */
  function SpacesFrom(s: string, k: nat): (n: nat)
    requires k <= |s|
    ensures n <= k
    ensures forall i :: n <= i < k ==> IsJsSpace(s[i])
    ensures n > 0 ==> !IsJsSpace(s[n - 1])
  {
    if k > 0 && IsJsSpace(s[k - 1]) then SpacesFrom(s, k - 1) else k
  }

  /** Removes leading white space; what remains is a suffix of `s`. */
  function TrimStart(s: string): (r: string)
    ensures |r| <= |s| && forall i :: 0 <= i < |r| ==> r[i] == s[|s| - |r| + i]
    ensures |r| > 0 ==> !IsJsSpace(r[0])
    ensures forall i :: 0 <= i < |s| - |r| ==> IsJsSpace(s[i])
  {
    var n := SpacesUntil(s, 0);
    seq(|s| - n, i requires 0 <= i < |s| - n => s[n + i])
  }

  /** Removes trailing white space; what remains is a prefix of `s`. */
  function TrimEnd(s: string): (r: string)
    ensures |r| <= |s| && forall i :: 0 <= i < |r| ==> r[i] == s[i]
    ensures |r| > 0 ==> !IsJsSpace(r[|r| - 1])
    ensures forall i :: |r| <= i < |s| ==> IsJsSpace(s[i])
  {
    var n := SpacesFrom(s, |s|);
    seq(n, i requires 0 <= i < n => s[i])
  }

  /** `s.trim()`. */
  function Trim(s: string): string {
    TrimEnd(TrimStart(s))
  }

  /** `s.trim() === ''`: the leading white space runs to the end of `s`
      (`BlankIffTrimEmpty` shows this is exactly an empty `Trim(s)`). */
  predicate IsBlank(s: string) {
    SpacesUntil(s, 0) == |s|
  }

  /** A string is blank exactly when trimming leaves nothing. */
  lemma BlankIffTrimEmpty(s: string)
    ensures IsBlank(s) <==> Trim(s) == ""
  {
    var a := TrimStart(s);
    if IsBlank(s) {
      assert |a| == 0;
    } else {
      assert |a| > 0 && !IsJsSpace(a[0]);
      var r := TrimEnd(a);
      assert |r| > 0;
    }
  }

  /** The empty string is blank, so a non-blank string has characters. */
  lemma EmptyIsBlank()
    ensures IsBlank("")
  {
    assert SpacesUntil("", 0) == 0;
  }

  /** `trim` yields the empty string exactly when every character is white space. */
  lemma BlankIffAllSpace(s: string)
    ensures IsBlank(s) <==> forall i :: 0 <= i < |s| ==> IsJsSpace(s[i])
  {
    var n := SpacesUntil(s, 0);
    if n < |s| {
      assert !IsJsSpace(s[n]);
    }
  }

  /** The trimmed string has white space at neither end. */
  lemma TrimEnds(s: string)
    ensures var r := Trim(s); |r| > 0 ==> !IsJsSpace(r[0]) && !IsJsSpace(r[|r| - 1])
  {
    var a := TrimStart(s);
    var r := TrimEnd(a);
    if |r| > 0 {
      assert r[0] == a[0];
    }
  }

  /** A string that does not start with white space is its own `trimStart`. */
  lemma TrimStartFixes(r: string)
    requires |r| == 0 || !IsJsSpace(r[0])
    ensures TrimStart(r) == r
  {
    var a := TrimStart(r);
    assert |a| == |r|;
    assert forall i :: 0 <= i < |r| ==> a[i] == r[i];
  }

  /** A string that does not end with white space is its own `trimEnd`. */
  lemma TrimEndFixes(r: string)
    requires |r| == 0 || !IsJsSpace(r[|r| - 1])
    ensures TrimEnd(r) == r
  {
    var b := TrimEnd(r);
    assert |b| == |r|;
    assert forall i :: 0 <= i < |r| ==> b[i] == r[i];
  }

  /** Trimming is idempotent. */
  lemma TrimIdempotent(s: string)
    ensures Trim(Trim(s)) == Trim(s)
  {
    var r := Trim(s);
    TrimEnds(s);
    TrimStartFixes(r);
    TrimEndFixes(r);
  }

  /** ASCII `toLowerCase` of one character; every other character is kept. */
  function LowerChar(c: char): (d: char)
    ensures 'A' <= c <= 'Z' ==> 'a' <= d <= 'z' && d as int == c as int + 32
    ensures !('A' <= c <= 'Z') ==> d == c
  {
    if 'A' <= c <= 'Z' then (c as int + 32) as char else c
  }

  /** ASCII `toLowerCase` of a string: same length, each character lowered. */
  function LowerAscii(s: string): (r: string)
    ensures |r| == |s|
    ensures forall i :: 0 <= i < |s| ==> r[i] == LowerChar(s[i])
  {
    if |s| == 0 then "" else [LowerChar(s[0])] + LowerAscii(s[1..])
  }
}
