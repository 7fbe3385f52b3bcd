/**
 * The parts of JavaScript's value model and string library that the modelled
 * components rely on: truthiness, `null`/`undefined`, `typeof … === 'number'`,
 * `String.prototype.trim`, the regular-expression class `\s`, `includes` and
 * `Array.prototype.join`.
 */
module Js {

  /**
   * A JavaScript value, as far as the modelled code inspects it. Numbers are
   * modelled as reals (floating-point rounding is not modelled), `NaN` is a
   * value of its own, and every object or array is an opaque reference.
   */
  datatype Value =
    | Undefined
    | Null
    | Bool(b: bool)
    | Num(n: real)
    | NaN
    | Str(s: string)
    | Obj(ref: nat)

  /** ToBoolean: `false`, `0`, `NaN`, `''`, `null` and `undefined` are falsy. */
  predicate Truthy(v: Value) {
    match v
    case Undefined => false
    case Null => false
    case NaN => false
    case Bool(b) => b
    case Num(n) => n != 0.0
    case Str(s) => s != ""
    case Obj(_) => true
  }

  /** `v === null || typeof v === 'undefined'` */
  predicate IsNullish(v: Value) {
    v.Undefined? || v.Null?
  }

  /** `typeof v === 'number'` */
  predicate IsNumber(v: Value) {
    v.Num? || v.NaN?
  }

  /** `a[i]` on an array: `undefined` past the end. */
  function ValueAt(a: seq<Value>, i: nat): (v: Value)
    ensures i < |a| ==> v == a[i]
    ensures i >= |a| ==> !Truthy(v)
  {
    if i < |a| then a[i] else Undefined
  }

  /**
   * The characters matched by the regular-expression class `\s` and removed by
   * `trim`: WhiteSpace and LineTerminator of section 12.2 and 12.3 of
   * ECMA-262 (tab, line tabulation, form feed, space, no-break space, the
   * byte order mark, the Unicode space separators, line feed, carriage
   * return, line and paragraph separator).
   */
  predicate IsWhitespace(c: char) {
    var n := c as int;
    n == 0x09 || n == 0x0A || n == 0x0B || n == 0x0C || n == 0x0D || n == 0x20 ||
    n == 0xA0 || n == 0x1680 || (0x2000 <= n <= 0x200A) || n == 0x2028 ||
    n == 0x2029 || n == 0x202F || n == 0x205F || n == 0x3000 || n == 0xFEFF
  }

  predicate NoWhitespace(s: string) {
    forall i :: 0 <= i < |s| ==> !IsWhitespace(s[i])
  }

  /** Removes the leading whitespace of `s`. */
  function TrimStart(s: string): string
  {
    if s == [] || !IsWhitespace(s[0]) then s else TrimStart(s[1..])
  }

  /** Removes the trailing whitespace of `s`. */
  function TrimEnd(s: string): string
  {
    if s == [] || !IsWhitespace(s[|s| - 1]) then s else TrimEnd(s[..|s| - 1])
  }

  /**
   * `TrimStart(s)` is a suffix of `s`, everything removed is whitespace, and
   * what is left does not start with whitespace.
   */
  lemma {:induction false} TrimStartRemovesLeading(s: string)
    ensures var r := TrimStart(s);
      |r| <= |s| && r == s[|s| - |r|..] &&
      (forall i :: 0 <= i < |s| - |r| ==> IsWhitespace(s[i])) &&
      (r == [] || !IsWhitespace(r[0]))
  {
    if s != [] && IsWhitespace(s[0]) {
      var r := TrimStart(s[1..]);
      TrimStartRemovesLeading(s[1..]);
      assert r == s[1..][|s| - 1 - |r|..] == s[|s| - |r|..];
      forall i | 0 <= i < |s| - |r| ensures IsWhitespace(s[i]) {
        if i > 0 {
          assert s[i] == s[1..][i - 1];
        }
      }
    }
  }

  /**
   * `TrimEnd(s)` is a prefix of `s`, everything removed is whitespace, and
   * what is left does not end with whitespace.
   */
  lemma {:induction false} TrimEndRemovesTrailing(s: string)
    ensures var r := TrimEnd(s);
      |r| <= |s| && r == s[..|r|] &&
      (forall i :: |r| <= i < |s| ==> IsWhitespace(s[i])) &&
      (r == [] || !IsWhitespace(r[|r| - 1]))
  {
    if s != [] && IsWhitespace(s[|s| - 1]) {
      var r := TrimEnd(s[..|s| - 1]);
      TrimEndRemovesTrailing(s[..|s| - 1]);
      assert r == s[..|s| - 1][..|r|] == s[..|r|];
      forall i | |r| <= i < |s| ensures IsWhitespace(s[i]) {
        if i < |s| - 1 {
          assert s[i] == s[..|s| - 1][i];
        }
      }
    }
  }

  /**
   * `r` is `s` with the `i` characters before it and everything after it
   * removed, and all of the removed characters are whitespace.
   */
  predicate IsTrimmedFactor(s: string, r: string, i: nat) {
    i + |r| <= |s| && r == s[i..i + |r|] &&
    (forall k :: 0 <= k < i ==> IsWhitespace(s[k])) &&
    (forall k :: i + |r| <= k < |s| ==> IsWhitespace(s[k]))
  }

  /** `s.trim()` */
  function Trim(s: string): string
  {
    TrimEnd(TrimStart(s))
  }

  /**
   * `s.trim()` is the factor of `s` obtained by removing only whitespace on
   * both sides, and it neither starts nor ends with whitespace.
   */
  lemma TrimRemovesOuterWhitespace(s: string)
    ensures exists i: nat :: IsTrimmedFactor(s, Trim(s), i)
    ensures var r := Trim(s); r == [] || (!IsWhitespace(r[0]) && !IsWhitespace(r[|r| - 1]))
  {
    var t := TrimStart(s);
    TrimStartRemovesLeading(s);
    TrimEndRemovesTrailing(t);
    var r := TrimEnd(t);
    var i := |s| - |t|;
    TrimmedFactorAt(s, t, r, i);
    assert IsTrimmedFactor(s, Trim(s), i);
    if r != [] {
      assert r[0] == t[0];
    }
  }

  lemma TrimmedFactorAt(s: string, t: string, r: string, i: nat)
    requires i <= |s| && t == s[i..] && (forall k :: 0 <= k < i ==> IsWhitespace(s[k]))
    requires |r| <= |t| && r == t[..|r|] && (forall k :: |r| <= k < |t| ==> IsWhitespace(t[k]))
    ensures IsTrimmedFactor(s, r, i)
  {
  }

  /** Trimming removes characters and adds none. */
  lemma TrimKeepsChars(s: string)
    ensures forall c :: c in Trim(s) ==> c in s
  {
    TrimRemovesOuterWhitespace(s);
    var i: nat :| IsTrimmedFactor(s, Trim(s), i);
    FactorChars(s, Trim(s), i);
  }

  lemma FactorChars(s: string, r: string, i: nat)
    requires i + |r| <= |s| && r == s[i..i + |r|]
    ensures forall c :: c in r ==> c in s
  {
  }

  /** Trimming a string that neither starts nor ends with whitespace changes nothing. */
  lemma TrimOfTrimmed(s: string)
    requires s == [] || (!IsWhitespace(s[0]) && !IsWhitespace(s[|s| - 1]))
    ensures Trim(s) == s
  {
  }

  /** `s.replace(/\s/g, rep)` */
  function ReplaceWhitespace(s: string, rep: string): string
  {
    if s == [] then []
    else (if IsWhitespace(s[0]) then rep else [s[0]]) + ReplaceWhitespace(s[1..], rep)
  }

  /** With a replacement free of whitespace, no whitespace is left. */
  lemma {:induction false} ReplaceLeavesNoWhitespace(s: string, rep: string)
    requires NoWhitespace(rep)
    ensures NoWhitespace(ReplaceWhitespace(s, rep))
  {
    if s != [] {
      ReplaceLeavesNoWhitespace(s[1..], rep);
      var head := if IsWhitespace(s[0]) then rep else [s[0]];
      var tail := ReplaceWhitespace(s[1..], rep);
      forall i | 0 <= i < |head + tail| ensures !IsWhitespace((head + tail)[i]) {
        if i >= |head| {
          assert (head + tail)[i] == tail[i - |head|];
        }
      }
    }
  }

  /** Every character of the result comes from `s` or from `rep`. */
  lemma {:induction false} ReplaceKeepsChars(s: string, rep: string)
    ensures forall c :: c in ReplaceWhitespace(s, rep) ==> c in s || c in rep
  {
    if s != [] {
      ReplaceKeepsChars(s[1..], rep);
      var head := if IsWhitespace(s[0]) then rep else [s[0]];
      var tail := ReplaceWhitespace(s[1..], rep);
      forall c | c in head + tail ensures c in s || c in rep {
        if c !in head {
          assert c in tail;
          assert c in s[1..] || c in rep;
        }
      }
    }
  }

  /** A single character is replaced by `rep` exactly when it is whitespace, and kept otherwise. */
  lemma ReplaceSingle(c: char, rep: string)
    ensures ReplaceWhitespace([c], rep) == if IsWhitespace(c) then rep else [c]
  {
  }

  /**
   * The replacement works character by character: replacing in a
   * concatenation concatenates the replaced parts. With `ReplaceSingle` this
   * fixes the result for every string.
   */
  lemma {:induction false} ReplaceConcat(a: string, b: string, rep: string)
    ensures ReplaceWhitespace(a + b, rep) == ReplaceWhitespace(a, rep) + ReplaceWhitespace(b, rep)
  {
    if a == [] {
      assert a + b == b;
    } else {
      assert (a + b)[0] == a[0];
      assert (a + b)[1..] == a[1..] + b;
      ReplaceConcat(a[1..], b, rep);
    }
  }

  /** A string without whitespace is left unchanged. */
  lemma {:induction false} ReplaceWithoutWhitespace(s: string, rep: string)
    requires NoWhitespace(s)
    ensures ReplaceWhitespace(s, rep) == s
  {
    if s != [] {
      assert !IsWhitespace(s[0]);
      assert NoWhitespace(s[1..]) by {
        forall i | 0 <= i < |s[1..]| ensures !IsWhitespace(s[1..][i]) {
          assert s[1..][i] == s[i + 1];
        }
      }
      ReplaceWithoutWhitespace(s[1..], rep);
      assert [s[0]] + s[1..] == s;
    }
  }

  /** `sub` occurs in `s` starting at position `i`. */
  predicate OccursAt(s: string, sub: string, i: nat) {
    i + |sub| <= |s| && s[i..i + |sub|] == sub
  }

  /** `s.includes(sub)` */
  function Includes(s: string, sub: string): (r: bool)
    ensures r <==> exists i: nat :: OccursAt(s, sub, i)
  {
    IncludesFrom(s, sub, 0)
  }

  /** Whether `sub` occurs in `s` at some position from `from` on. */
  function IncludesFrom(s: string, sub: string, from: nat): (r: bool)
    ensures r <==> exists i: nat :: from <= i && OccursAt(s, sub, i)
    decreases |s| - from
  {
    if from + |sub| > |s| then false
    else OccursAt(s, sub, from) || IncludesFrom(s, sub, from + 1)
  }

  /** `parts.join(sep)` */
  function Join(parts: seq<string>, sep: string): string
  {
    if |parts| == 0 then ""
    else if |parts| == 1 then parts[0]
    else parts[0] + sep + Join(parts[1..], sep)
  }

  /** Joining no parts gives the empty string, and one part gives that part. */
  lemma JoinBase(p: string, sep: string)
    ensures Join([], sep) == ""
    ensures Join([p], sep) == p
  {
  }

  /** Appending a part to a non-empty list appends the separator and that part. */
  lemma {:induction false} JoinSnoc(parts: seq<string>, p: string, sep: string)
    requires |parts| > 0
    ensures Join(parts + [p], sep) == Join(parts, sep) + sep + p
  {
    if |parts| > 1 {
      assert (parts + [p])[1..] == parts[1..] + [p];
      JoinSnoc(parts[1..], p, sep);
    } else {
      assert parts + [p] == [parts[0], p];
    }
  }
}
