/** Parameterised statement text.  A statement is a template: a sequence of
    fixed text segments and `$n` parameter references.  Bound values never
    appear in a template; they travel beside it in a separate array, and
    `$n` refers to the n-th entry of that array (counting from 1). */
module SqlText {

  import opened JsValues

  datatype Segment = Text(text: string) | Param(index: nat)

  type Template = seq<Segment>

  predicate IsDigit(c: char)
  {
    '0' <= c <= '9'
  }

  function DigitChar(d: nat): (c: char)
    requires d < 10
    ensures IsDigit(c)
  {
    ('0' as int + d) as char
  }

  function DigitValue(c: char): nat
  {
    if IsDigit(c) then c as int - '0' as int else 0
  }

  /** The decimal numeral of `n`, as JavaScript template literals print an integer. */
  function Decimal(n: nat): (s: string)
    ensures |s| > 0
    ensures forall i :: 0 <= i < |s| ==> IsDigit(s[i])
  {
    if n < 10 then [DigitChar(n)] else Decimal(n / 10) + [DigitChar(n % 10)]
  }

  /** Reads a string of decimal digits back as a number. */
  function ParseDecimal(s: string): nat
  {
    if s == [] then 0 else ParseDecimal(s[..|s| - 1]) * 10 + DigitValue(s[|s| - 1])
  }

  lemma {:induction false} ParseDecimalInverts(n: nat)
    ensures ParseDecimal(Decimal(n)) == n
  {
    var s := Decimal(n);
    if n < 10 {
      assert s[..|s| - 1] == [];
    } else {
      assert s[..|s| - 1] == Decimal(n / 10);
      ParseDecimalInverts(n / 10);
    }
  }

  /** The text of the parameter reference `$k`. */
  function Placeholder(k: nat): string
  {
    "$" + Decimal(k)
  }

  function RenderSegment(g: Segment): string
  {
    match g
    case Text(t) => t
    case Param(k) => Placeholder(k)
  }

  /** The statement text sent to the database. */
  function Render(t: Template): string
  {
    if t == [] then "" else RenderSegment(t[0]) + Render(t[1..])
  }

  /** The parameter numbers a template refers to, in order of appearance. */
  function Params(t: Template): seq<nat>
  {
    if t == [] then [] else SegmentParams(t[0]) + Params(t[1..])
  }

  function SegmentParams(g: Segment): seq<nat>
  {
    match g
    case Text(_) => []
    case Param(k) => [k]
  }

  lemma {:induction false} ParamsAppend(a: Template, b: Template)
    ensures Params(a + b) == Params(a) + Params(b)
  {
    if a == [] {
      assert a + b == b;
    } else {
      assert (a + b)[0] == a[0] && (a + b)[1..] == a[1..] + b;
      ParamsAppend(a[1..], b);
      calc {
        Params(a + b);
        SegmentParams(a[0]) + Params(a[1..] + b);
        SegmentParams(a[0]) + (Params(a[1..]) + Params(b));
        Params(a) + Params(b);
      }
    }
  }

  /** JavaScript `parts.join(sep)` on templates. */
  function JoinTemplates(parts: seq<Template>, sep: string): Template
  {
    if |parts| == 0 then []
    else if |parts| == 1 then parts[0]
    else JoinTemplates(parts[..|parts| - 1], sep) + [Text(sep)] + parts[|parts| - 1]
  }

  /** A parameter number occurs in a joined template exactly when it occurs
      in one of the parts: joining adds and loses no references. */
  lemma {:induction false} ParamsJoin(parts: seq<Template>, sep: string, k: nat)
    ensures k in Params(JoinTemplates(parts, sep))
        <==> exists i :: 0 <= i < |parts| && k in Params(parts[i])
  {
    var n := |parts|;
    if n > 1 {
      var init := parts[..n - 1];
      ParamsAppend(JoinTemplates(init, sep) + [Text(sep)], parts[n - 1]);
      ParamsAppend(JoinTemplates(init, sep), [Text(sep)]);
      assert Params([Text(sep)]) == [];
      ParamsJoin(init, sep, k);
      if k in Params(JoinTemplates(parts, sep)) {
        if k in Params(JoinTemplates(init, sep)) {
          var i :| 0 <= i < |init| && k in Params(init[i]);
          assert parts[i] == init[i];
        } else {
          assert k in Params(parts[n - 1]);
        }
      } else {
        forall i | 0 <= i < n
          ensures k !in Params(parts[i])
        {
          if i < n - 1 {
            assert parts[i] == init[i];
          }
        }
      }
    }
  }

  /** The length of the run of digits `s` starts with. */
  function DigitRun(s: string): (n: nat)
    ensures n <= |s|
    ensures forall i :: 0 <= i < n ==> IsDigit(s[i])
    ensures n < |s| ==> !IsDigit(s[n])
  {
    if s == [] || !IsDigit(s[0]) then 0 else 1 + DigitRun(s[1..])
  }

  /** The parameter numbers a statement text refers to, read off the text
      the way the database reads it: each `$` and the run of digits after it. */
  function References(s: string): seq<nat>
    decreases |s|
  {
    if s == [] then []
    else if s[0] == '$' then
      var n := DigitRun(s[1..]);
      [ParseDecimal(s[1..1 + n])] + References(s[1 + n..])
    else References(s[1..])
  }

  /** A text segment may follow a reference when it cannot extend its digits. */
  predicate SafeAfterParam(g: Segment)
  {
    g.Text? && g.text != [] && !IsDigit(g.text[0])
  }

  /** A template whose text reads back unambiguously: no literal text holds
      a `$`, and a reference is never followed by something that could
      extend its digits. */
  predicate Delimited(t: Template)
  {
    && (forall i :: 0 <= i < |t| && t[i].Text? ==> '$' !in t[i].text)
    && (forall i :: 0 <= i < |t| - 1 && t[i].Param? ==> SafeAfterParam(t[i + 1]))
  }

  lemma {:induction false} DigitRunStops(d: string, r: string)
    requires forall i :: 0 <= i < |d| ==> IsDigit(d[i])
    requires r == [] || !IsDigit(r[0])
    ensures DigitRun(d + r) == |d|
  {
    if d == [] {
      assert d + r == r;
    } else {
      assert (d + r)[1..] == d[1..] + r;
      DigitRunStops(d[1..], r);
    }
  }

  /** Text without a `$` contributes no reference. */
  lemma {:induction false} ReferencesSkip(x: string, r: string)
    requires '$' !in x
    ensures References(x + r) == References(r)
  {
    if x != [] {
      assert (x + r)[0] == x[0] && (x + r)[1..] == x[1..] + r;
      ReferencesSkip(x[1..], r);
    } else {
      assert x + r == r;
    }
  }

  /** `$k` followed by a non-digit reads back as a reference to k. */
  lemma ReferencesPlaceholder(k: nat, r: string)
    requires r == [] || !IsDigit(r[0])
    ensures References(Placeholder(k) + r) == [k] + References(r)
  {
    var d := Decimal(k);
    var s := Placeholder(k) + r;
    assert s[1..] == d + r;
    DigitRunStops(d, r);
    assert s[1..1 + |d|] == d;
    assert s[1 + |d|..] == r;
    ParseDecimalInverts(k);
  }

  /** The references the database reads in the rendered text of a delimited
      template are exactly the template's parameter references, in order. */
  lemma {:induction false} ReferencesRender(t: Template)
    requires Delimited(t)
    ensures References(Render(t)) == Params(t)
  {
    if t != [] {
      var rest := t[1..];
      assert Delimited(rest) by {
        forall i | 0 <= i < |rest| && rest[i].Text? ensures '$' !in rest[i].text {
          assert rest[i] == t[i + 1];
        }
        forall i | 0 <= i < |rest| - 1 && rest[i].Param? ensures SafeAfterParam(rest[i + 1]) {
          assert rest[i] == t[i + 1] && rest[i + 1] == t[i + 2];
        }
      }
      ReferencesRender(rest);
      match t[0]
      case Text(x) =>
        ReferencesSkip(x, Render(rest));
      case Param(k) =>
        if rest != [] {
          assert SafeAfterParam(t[1]);
          assert Render(rest) == rest[0].text + Render(rest[1..]);
        }
        ReferencesPlaceholder(k, Render(rest));
    }
  }

  lemma TextDelimited(x: string)
    requires '$' !in x
    ensures Delimited([Text(x)])
  {
  }

  /** Literal text followed by a reference, optionally followed by more text. */
  lemma TextParamDelimited(x: string, k: nat, y: string)
    requires '$' !in x && '$' !in y && SafeAfterParam(Text(y))
    ensures Delimited([Text(x), Param(k)])
    ensures Delimited([Text(x), Param(k), Text(y)])
  {
  }

  /** Two delimited templates stay delimited when joined, provided a trailing
      reference of the first is followed by a safe segment. */
  lemma DelimitedAppend(a: Template, b: Template)
    requires Delimited(a) && Delimited(b)
    requires |a| > 0 && |b| > 0 && a[|a| - 1].Param? ==> SafeAfterParam(b[0])
    ensures Delimited(a + b)
  {
    var t := a + b;
    forall i | 0 <= i < |t| - 1 && t[i].Param? ensures SafeAfterParam(t[i + 1]) {
      if i < |a| - 1 {
        assert t[i] == a[i] && t[i + 1] == a[i + 1];
      } else if i == |a| - 1 {
        assert t[i] == a[i] && t[i + 1] == b[0];
      } else {
        assert t[i] == b[i - |a|] && t[i + 1] == b[i - |a| + 1];
      }
    }
    forall i | 0 <= i < |t| && t[i].Text? ensures '$' !in t[i].text {
      if i < |a| {
        assert t[i] == a[i];
      } else {
        assert t[i] == b[i - |a|];
      }
    }
  }

  /** Joining delimited parts with a separator that has no `$` and does not
      start with a digit gives a delimited template. */
  lemma {:induction false} DelimitedJoin(parts: seq<Template>, sep: string)
    requires forall i :: 0 <= i < |parts| ==> Delimited(parts[i])
    requires SafeAfterParam(Text(sep)) && '$' !in sep
    ensures Delimited(JoinTemplates(parts, sep))
  {
    var n := |parts|;
    if n > 1 {
      var init := parts[..n - 1];
      DelimitedJoin(init, sep);
      DelimitedAppend(JoinTemplates(init, sep), [Text(sep)]);
      DelimitedAppend(JoinTemplates(init, sep) + [Text(sep)], parts[n - 1]);
    }
  }

  /** ASCII lower-casing of one character. */
  function LowerChar(c: char): char
  {
    if 'A' <= c <= 'Z' then (c as int - 'A' as int + 'a' as int) as char else c
  }

  /** `String.prototype.toLowerCase`, restricted to ASCII letters. */
  function LowerAscii(s: string): (r: string)
    ensures |r| == |s|
    ensures forall i :: 0 <= i < |s| ==> !('A' <= r[i] <= 'Z')
    ensures forall i :: 0 <= i < |s| && !('A' <= s[i] <= 'Z') ==> r[i] == s[i]
    ensures forall i :: 0 <= i < |s| && 'A' <= s[i] <= 'Z' ==>
      'a' <= r[i] <= 'z' && r[i] as int - 'a' as int == s[i] as int - 'A' as int
  {
    seq(|s|, i requires 0 <= i < |s| => LowerChar(s[i]))
  }

  /** Lower-casing twice is lower-casing once. */
  lemma LowerAsciiIdempotent(s: string)
    ensures LowerAscii(LowerAscii(s)) == LowerAscii(s)
  {
  }
}
