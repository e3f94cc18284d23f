/**
 * Shared vocabulary: optional values, JavaScript string predicates
 * (`trim()` emptiness, `length` in UTF-16 code units, `includes`),
 * ASCII character classes standing in for the regular expressions the
 * source uses, and small sequence helpers.
 */
module Common {

  datatype Option<+T> = None | Some(value: T)

  /**
   * The outcome of an awaited call into code outside the model (a
   * database query, a network request): the value it produced, or the
   * failure it raised, with the `Error.message` when the thrown value was
   * an `Error`.
   */
  datatype Fetch<T> = Fetched(value: T) | Failed(message: Option<string>)

  /** `err instanceof Error ? err.message : fallback`. */
  function ErrorText(message: Option<string>, fallback: string): (r: string)
    ensures message.Some? ==> r == message.value
    ensures message.None? ==> r == fallback
  {
    if message.Some? then message.value else fallback
  }

  /** JavaScript truthiness of an optional string: `null` and `""` are falsy. */
  predicate Truthy(o: Option<string>) {
    o.Some? && o.value != ""
  }

  /** A JavaScript string is falsy exactly when it is empty. */
  predicate IsEmpty(s: string) {
    s == ""
  }

  /**
   * The characters `String.prototype.trim` strips: the ECMAScript
   * WhiteSpace set (TAB, VT, FF, SP, NBSP, ZWNBSP and the Zs category)
   * and the LineTerminator set (LF, CR, LS, PS).
   */
  predicate IsJsWhitespace(c: char) {
    c == '\t' || c == '\n' || c == '\U{B}' || c == '\U{C}' || c == '\r' ||
    c == ' ' || c == '\U{A0}' || c == '\U{1680}' ||
    ('\U{2000}' <= c <= '\U{200A}') ||
    c == '\U{2028}' || c == '\U{2029}' || c == '\U{202F}' || c == '\U{205F}' ||
    c == '\U{3000}' || c == '\U{FEFF}'
  }

  /** `!s.trim()`: the string is empty once surrounding whitespace is removed. */
  predicate IsBlank(s: string) {
    forall i :: 0 <= i < |s| ==> IsJsWhitespace(s[i])
  }

  /** `s.length`: characters beyond the Basic Multilingual Plane take two code units. */
  function Utf16Length(s: string): (n: nat)
    ensures |s| <= n <= 2 * |s|
    ensures (forall i :: 0 <= i < |s| ==> s[i] < '\U{10000}') ==> n == |s|
  {
    if s == [] then 0
    else Utf16Length(s[..|s| - 1]) + (if s[|s| - 1] < '\U{10000}' then 1 else 2)
  }

  predicate IsAsciiUpper(c: char) { 'A' <= c <= 'Z' }
  predicate IsAsciiLower(c: char) { 'a' <= c <= 'z' }
  predicate IsAsciiDigit(c: char) { '0' <= c <= '9' }

  /** The character class `[a-zA-Z0-9_-]`. */
  predicate IsNameChar(c: char) {
    IsAsciiUpper(c) || IsAsciiLower(c) || IsAsciiDigit(c) || c == '_' || c == '-'
  }

  /** `/^[a-zA-Z0-9_-]+$/.test(s)`. */
  predicate IsNameToken(s: string) {
    |s| > 0 && forall i :: 0 <= i < |s| ==> IsNameChar(s[i])
  }

  /** `/(?=.*[X])/.test(s)` for a character class X: some character of `s` is in X. */
  predicate HasUpper(s: string) { exists i :: 0 <= i < |s| && IsAsciiUpper(s[i]) }
  predicate HasDigit(s: string) { exists i :: 0 <= i < |s| && IsAsciiDigit(s[i]) }

  /** The class `[!@#$%^&*]`. */
  predicate IsSpecialChar(c: char) {
    c == '!' || c == '@' || c == '#' || c == '$' || c == '%' || c == '^' || c == '&' || c == '*'
  }
  predicate HasSpecial(s: string) { exists i :: 0 <= i < |s| && IsSpecialChar(s[i]) }

  /** `s.includes(t)`. */
  predicate Includes(s: string, t: string) {
    exists i | 0 <= i <= |s| - |t| :: OccursAt(s, t, i)
  }

  predicate OccursAt(s: string, t: string, i: int) {
    0 <= i <= |s| - |t| && s[i..i + |t|] == t
  }

  /** `toLowerCase` restricted to the ASCII letters. */
  function AsciiLower(c: char): (r: char)
    ensures IsAsciiUpper(c) ==> IsAsciiLower(r)
    ensures !IsAsciiUpper(c) ==> r == c
  {
    if IsAsciiUpper(c) then (c as int + 32) as char else c
  }

  function ToLower(s: string): (r: string)
    ensures |r| == |s|
    ensures forall i :: 0 <= i < |s| ==> r[i] == AsciiLower(s[i])
  {
    seq(|s|, i requires 0 <= i < |s| => AsciiLower(s[i]))
  }

  /** Decimal rendering of a natural number, as `${n}` prints it. */
  function NatToString(n: nat): (s: string)
    ensures |s| > 0
    ensures forall i :: 0 <= i < |s| ==> IsAsciiDigit(s[i])
  {
    if n < 10 then [('0' as int + n) as char]
    else NatToString(n / 10) + [('0' as int + n % 10) as char]
  }

  /** A time-stamped id: a fixed prefix followed by the milliseconds in decimal. */
  function Stamped(prefix: string, now: nat): (id: string)
    ensures |id| > |prefix| && id[..|prefix|] == prefix
    ensures forall i :: |prefix| <= i < |id| ==> IsAsciiDigit(id[i])
  {
    prefix + NatToString(now)
  }

  /** Different instants render differently. */
  lemma {:induction false} NatToStringInjective(a: nat, b: nat)
    requires NatToString(a) == NatToString(b)
    ensures a == b
  {
    if a >= 10 && b >= 10 {
      var sa, sb := NatToString(a), NatToString(b);
      assert sa[..|sa| - 1] == NatToString(a / 10);
      assert sb[..|sb| - 1] == NatToString(b / 10);
      NatToStringInjective(a / 10, b / 10);
      assert sa[|sa| - 1] == sb[|sb| - 1];
    }
  }

  /** Ids stamped with the same prefix at different instants differ. */
  lemma StampsDistinct(prefix: string, a: nat, b: nat)
    requires a != b
    ensures Stamped(prefix, a) != Stamped(prefix, b)
  {
    if Stamped(prefix, a) == Stamped(prefix, b) {
      assert Stamped(prefix, a)[|prefix|..] == NatToString(a);
      assert Stamped(prefix, b)[|prefix|..] == NatToString(b);
      NatToStringInjective(a, b);
    }
  }

  /** Number of elements of `s` equal to `x`. */
  function Count<T(==)>(s: seq<T>, x: T): (n: nat)
    ensures n <= |s|
    ensures n == 0 <==> x !in s
  {
    if s == [] then 0 else Count(s[..|s| - 1], x) + (if s[|s| - 1] == x then 1 else 0)
  }

  /** `s.filter(x => x !== y)`: every element equal to `y` removed, the rest in order. */
  function Without<T(==,!new)>(s: seq<T>, y: T): (r: seq<T>)
    ensures y !in r
    ensures forall x :: x in r <==> x in s && x != y
    ensures |r| == |s| - Count(s, y)
  {
    if s == [] then []
    else Without(s[..|s| - 1], y) + (if s[|s| - 1] == y then [] else [s[|s| - 1]])
  }

  /** No element occurs twice, as in a JavaScript `Set`. */
  predicate NoDuplicates<T(==)>(s: seq<T>) {
    forall i, j :: 0 <= i < j < |s| ==> s[i] != s[j]
  }

  /**
   * `[...new Set(s)]`: the elements of `s` in order of first occurrence,
   * each once.
   */
  function Distinct<T(==,!new)>(s: seq<T>): (r: seq<T>)
    ensures NoDuplicates(r)
    ensures forall x :: x in r <==> x in s
    ensures |r| <= |s|
  {
    if s == [] then []
    else
      var d := Distinct(s[..|s| - 1]);
      assert forall x :: x in s <==> x in s[..|s| - 1] || x == s[|s| - 1];
      if s[|s| - 1] in d then d else d + [s[|s| - 1]]
  }

  /** A sequence without repetitions is its own set of distinct elements. */
  lemma {:induction false} DistinctOfDistinct<T(!new)>(s: seq<T>)
    requires NoDuplicates(s)
    ensures Distinct(s) == s
  {
    if s != [] {
      var p := s[..|s| - 1];
      assert NoDuplicates(p);
      DistinctOfDistinct(p);
      assert s[|s| - 1] !in p;
      assert s == p + [s[|s| - 1]];
    }
  }

  /**
   * An emit on the optional socket (`socket?.emit(...)`): the message
   * reaches the log of sent messages only if a socket exists.
   */
  function Emit<E>(sent: seq<E>, socketUp: bool, e: E): (r: seq<E>)
    ensures socketUp ==> r == sent + [e]
    ensures !socketUp ==> r == sent
  {
    if socketUp then sent + [e] else sent
  }

  lemma CountSnoc<T>(s: seq<T>, x: T, y: T)
    ensures Count(s + [x], y) == Count(s, y) + (if x == y then 1 else 0)
  {
    assert (s + [x])[..|s|] == s;
  }

  /** In a sequence without repetitions an element that occurs, occurs once. */
  lemma {:induction false} CountInDistinct<T>(d: seq<T>, x: T)
    requires NoDuplicates(d) && x in d
    ensures Count(d, x) == 1
  {
    var p := d[..|d| - 1];
    assert NoDuplicates(p);
    assert d == p + [d[|d| - 1]];
    if d[|d| - 1] == x {
      assert x !in p;
    } else {
      assert x in p;
      CountInDistinct(p, x);
    }
  }

  /** The position of the first occurrence of `x`. */
  function FirstIndex<T(==)>(s: seq<T>, x: T): (k: nat)
    requires x in s
    ensures k < |s| && s[k] == x
    ensures forall j :: 0 <= j < k ==> s[j] != x
  {
    if s[0] == x then 0 else 1 + FirstIndex(s[1..], x)
  }

  lemma FirstIndexSnoc<T>(s: seq<T>, x: T, y: T)
    requires y in s
    ensures FirstIndex(s + [x], y) == FirstIndex(s, y)
  {
    assert (s + [x])[FirstIndex(s, y)] == y;
  }

  lemma FirstIndexOfNew<T>(s: seq<T>, x: T)
    requires x !in s
    ensures FirstIndex(s + [x], x) == |s|
  {
    assert forall j :: 0 <= j < |s| ==> (s + [x])[j] == s[j];
  }

  /** `Distinct` lists the elements in the order of their first occurrences. */
  lemma {:induction false} DistinctInFirstOccurrenceOrder<T(!new)>(s: seq<T>, i: nat, j: nat)
    requires i < j < |Distinct(s)|
    ensures FirstIndex(s, Distinct(s)[i]) < FirstIndex(s, Distinct(s)[j])
  {
    var p := s[..|s| - 1];
    var x := s[|s| - 1];
    var d := Distinct(p);
    assert s == p + [x];
    var d' := Distinct(s);
    assert d' == if x in d then d else d + [x];
    assert d'[i] == d[i] && d[i] in p;
    FirstIndexSnoc(p, x, d[i]);
    if j < |d| {
      assert d'[j] == d[j] && d[j] in p;
      FirstIndexSnoc(p, x, d[j]);
      DistinctInFirstOccurrenceOrder(p, i, j);
    } else {
      assert d'[j] == x && x !in p;
      FirstIndexOfNew(p, x);
    }
  }
}
