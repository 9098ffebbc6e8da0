/** String helpers the handlers lean on: `String(n)` for a page size,
    `Array.prototype.join(',')` for the update mask, and the
    `/${resourceName}:action` path template. Each comes with the reading
    that undoes it. */
module Text {
  import opened Wrappers

  predicate IsDigit(c: char) {
    '0' <= c <= '9'
  }

  predicate AllDigits(s: string) {
    forall i :: 0 <= i < |s| ==> IsDigit(s[i])
  }

  function DigitChar(d: nat): (c: char)
    requires d < 10
    ensures IsDigit(c) && c as int - '0' as int == d
  {
    ('0' as int + d) as char
  }

  /** `String(n)` for a non-negative integer: its decimal numeral. */
  function Decimal(n: nat): (s: string)
    ensures |s| >= 1 && AllDigits(s)
    ensures s[0] == '0' <==> n == 0
    decreases n
  {
    if n < 10 then [DigitChar(n)] else Decimal(n / 10) + [DigitChar(n % 10)]
  }

  /** The number a string of digits denotes. */
  function DigitsValue(s: string): nat
    requires AllDigits(s)
    decreases |s|
  {
    if s == [] then 0 else 10 * DigitsValue(s[..|s| - 1]) + (s[|s| - 1] as int - '0' as int)
  }

  /** Reads a canonical decimal numeral back: non-empty, digits only,
      and no leading zero unless the numeral is "0". */
  function ParseDecimal(s: string): Option<nat> {
    if |s| >= 1 && AllDigits(s) && (s[0] != '0' || |s| == 1) then Some(DigitsValue(s)) else None
  }

  lemma {:induction false} DecimalValue(n: nat)
    ensures DigitsValue(Decimal(n)) == n
    decreases n
  {
    if n >= 10 {
      var s := Decimal(n);
      assert s[..|s| - 1] == Decimal(n / 10);
      DecimalValue(n / 10);
    }
  }

  /** The numeral `String(n)` sends is read back as `n`. */
  lemma DecimalRoundTrip(n: nat)
    ensures ParseDecimal(Decimal(n)) == Some(n)
  {
    DecimalValue(n);
  }

  /** `parts.join(sep)`. */
  function Join(parts: seq<string>, sep: char): string
    decreases |parts|
  {
    if |parts| == 0 then ""
    else if |parts| == 1 then parts[0]
    else parts[0] + [sep] + Join(parts[1..], sep)
  }

  /** `s.split(sep)`: at least one piece, the empty string giving `[""]`. */
  function Split(s: string, sep: char): (pieces: seq<string>)
    ensures |pieces| >= 1
    ensures forall i :: 0 <= i < |pieces| ==> sep !in pieces[i]
    decreases |s|
  {
    if |s| == 0 then [""]
    else
      var rest := Split(s[1..], sep);
      if s[0] == sep then [""] + rest else [[s[0]] + rest[0]] + rest[1..]
  }

  /** How a comma-separated field mask is read: the empty string names no
      field, anything else is split at each comma. */
  function SplitMask(s: string): seq<string> {
    if s == "" then [] else Split(s, ',')
  }

  lemma {:induction false} SplitWithoutSeparator(p: string, sep: char)
    requires sep !in p
    ensures Split(p, sep) == [p]
    decreases |p|
  {
    if |p| > 0 {
      SplitWithoutSeparator(p[1..], sep);
      assert [p[0]] + p[1..] == p;
    }
  }

  lemma {:induction false} SplitAtSeparator(p: string, sep: char, t: string)
    requires sep !in p
    ensures Split(p + [sep] + t, sep) == [p] + Split(t, sep)
    decreases |p|
  {
    var s := p + [sep] + t;
    if |p| == 0 {
      assert s[0] == sep && s[1..] == t;
    } else {
      assert s[0] == p[0] && s[1..] == p[1..] + [sep] + t;
      SplitAtSeparator(p[1..], sep, t);
      assert [p[0]] + p[1..] == p;
    }
  }

  /** Splitting a join gives the parts back when no part holds the
      separator. */
  lemma {:induction false} SplitJoin(parts: seq<string>, sep: char)
    requires |parts| >= 1
    requires forall i :: 0 <= i < |parts| ==> sep !in parts[i]
    ensures Split(Join(parts, sep), sep) == parts
    decreases |parts|
  {
    if |parts| == 1 {
      SplitWithoutSeparator(parts[0], sep);
    } else {
      SplitJoin(parts[1..], sep);
      SplitAtSeparator(parts[0], sep, Join(parts[1..], sep));
      assert [parts[0]] + parts[1..] == parts;
    }
  }

  /** A field mask joined with commas reads back as the same list, the
      empty list included, when every field name is non-empty and holds
      no comma. */
  lemma MaskRoundTrip(fields: seq<string>)
    requires forall i :: 0 <= i < |fields| ==> fields[i] != "" && ',' !in fields[i]
    ensures SplitMask(Join(fields, ',')) == fields
  {
    if |fields| >= 1 {
      SplitJoin(fields, ',');
      assert Join(fields, ',') != "" by {
        if |fields| == 1 {
        } else {
          assert |Join(fields, ',')| >= |fields[0]|;
        }
      }
    }
  }

  /** The path template `/${resource}:${action}`. */
  function ActionPath(resource: string, action: string): string {
    "/" + resource + ":" + action
  }

  /** The resource a template path names, read from its ends, so that a
      resource name holding ':' or '/' is still recovered whole. */
  function ResourceOf(path: string, action: string): Option<string> {
    var suffix := ":" + action;
    if |path| >= 1 + |suffix| && path[0] == '/' && path[|path| - |suffix|..] == suffix
    then Some(path[1..|path| - |suffix|])
    else None
  }

  lemma ActionPathRoundTrip(resource: string, action: string)
    ensures ResourceOf(ActionPath(resource, action), action) == Some(resource)
  {
    var path := ActionPath(resource, action);
    var suffix := ":" + action;
    assert path == "/" + resource + suffix;
    assert path[|path| - |suffix|..] == suffix;
    assert path[1..|path| - |suffix|] == resource;
  }

  /** Different resources give different paths. */
  lemma ActionPathInjective(a: string, b: string, action: string)
    requires ActionPath(a, action) == ActionPath(b, action)
    ensures a == b
  {
    ActionPathRoundTrip(a, action);
    ActionPathRoundTrip(b, action);
  }

  /** Equal strings with equal prefix and suffix have equal middles. */
  lemma MiddleCancels(prefix: string, a: string, b: string, suffix: string)
    requires prefix + a + suffix == prefix + b + suffix
    ensures a == b
  {
    var s := prefix + a + suffix;
    assert |a| == |b|;
    assert s[|prefix|..|prefix| + |a|] == a;
    assert (prefix + b + suffix)[|prefix|..|prefix| + |b|] == b;
  }
}
