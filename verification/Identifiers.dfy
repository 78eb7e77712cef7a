/** The names that the dataset generator gives to domains, tenants, sources and chunks, and why no
    two things share a name, even where numbers outgrow their padding.
 */
module Identifiers {
  const FAMILIES: seq<string> :=
    ["Orders", "Invoices", "Shipping", "Payments", "Customers", "Borders", "Preorders", "OrderHistory"]

  const NODE_TYPES: seq<string> :=
    ["controller", "service", "repository", "table", "log_table", "config", "worker", "event", "command", "validator"]

  /** A position in the list of node types. */
  type NodeType = t: nat | t < 10

  function Digit(d: nat): char
    requires d < 10
  {
    ['0', '1', '2', '3', '4', '5', '6', '7', '8', '9'][d]
  }

  function Decimal(n: nat): string {
    if n < 10 then [Digit(n)] else Decimal(n / 10) + [Digit(n % 10)]
  }

  function Zeros(n: nat): string { seq(n, _ => '0') }

  /** Python's zero padding: never cuts, so wide numbers stay whole. */
  function Padded(n: nat, width: nat): string {
    var digits := Decimal(n);
    if |digits| >= width then digits else Zeros(width - |digits|) + digits
  }

  function Upper(c: char): char { if 'a' <= c <= 'z' then (c as int - 32) as char else c }

  /** `type_label`: the parts between underscores, each with a capital. */
  function TypeLabel(name: string, atStart: bool := true): string {
    if name == "" then ""
    else if name[0] == '_' then TypeLabel(name[1..], true)
    else [if atStart then Upper(name[0]) else name[0]] + TypeLabel(name[1..], false)
  }

  function DomainName(d: nat): string { FAMILIES[d % 8] + "_" + Padded(d / 8 + 1, 6) }

  function TenantId(d: nat, tenants: nat): string
    requires tenants > 0
  {
    "tenant_" + Padded(d % tenants + 1, 4)
  }

  function VersionId(v: nat): string { "v" + Decimal(v) }

  function SourceId(d: nat, nodeType: NodeType): string {
    DomainName(d) + "_" + TypeLabel(NODE_TYPES[nodeType])
  }

  function ChunkId(d: nat, nodeType: NodeType, instance: nat, version: nat): string {
    SourceId(d, nodeType) + "_V" + Padded(version, 4) + "_" + Padded(instance, 4)
  }

  // ---------------------------------------------------------------------------- numbers

  function ValueOf(digits: string): nat {
    if digits == "" then 0
    else
      var last := digits[|digits| - 1];
      10 * ValueOf(digits[..|digits| - 1]) + if '0' <= last <= '9' then last as nat - '0' as nat else 0
  }

  lemma {:induction false} DecimalRoundTrip(n: nat)
    ensures ValueOf(Decimal(n)) == n
  {
    if n >= 10 {
      DecimalRoundTrip(n / 10);
      assert Decimal(n)[..|Decimal(n)| - 1] == Decimal(n / 10);
    } else {
      assert Decimal(n)[..0] == "";
    }
  }

  lemma {:induction false} LeadingZeros(k: nat, digits: string)
    ensures ValueOf(Zeros(k) + digits) == ValueOf(digits)
    decreases k + |digits|
  {
    if digits != "" {
      assert (Zeros(k) + digits)[..k + |digits| - 1] == Zeros(k) + digits[..|digits| - 1];
      LeadingZeros(k, digits[..|digits| - 1]);
    } else if k > 0 {
      assert Zeros(k)[..k - 1] == Zeros(k - 1);
      assert Zeros(k) + digits == Zeros(k) && Zeros(k - 1) + digits == Zeros(k - 1);
      LeadingZeros(k - 1, "");
    } else {
      assert Zeros(0) + digits == digits;
    }
  }

  /** A padded number reads back as itself at every width. */
  lemma PaddedRoundTrip(n: nat, width: nat)
    ensures ValueOf(Padded(n, width)) == n
  {
    DecimalRoundTrip(n);
    if |Decimal(n)| < width { LeadingZeros(width - |Decimal(n)|, Decimal(n)); }
  }

  lemma {:induction false} DecimalHasNoUnderscore(n: nat)
    ensures '_' !in Decimal(n)
  {
    if n >= 10 { DecimalHasNoUnderscore(n / 10); }
  }

  lemma PaddedHasNoUnderscore(n: nat, width: nat)
    ensures '_' !in Padded(n, width)
  {
    DecimalHasNoUnderscore(n);
  }

  // ------------------------------------------------------------------------------ names

  /** What follows the last separator, and what precedes it, can be read off. */
  lemma LastSeparatorSplits(sep: char, a: string, x: string, b: string, y: string)
    requires sep !in x && sep !in y && a + [sep] + x == b + [sep] + y
    ensures a == b && x == y
  {
    var s, t := a + [sep] + x, b + [sep] + y;
    assert s[|a|] == sep && t[|b|] == sep;
    assert |a| == |b|;
    assert s[..|a|] == a && t[..|b|] == b;
    assert s[|a| + 1..] == x && t[|b| + 1..] == y;
  }

  const LABELS: seq<string> :=
    ["Controller", "Service", "Repository", "Table", "LogTable", "Config", "Worker", "Event", "Command", "Validator"]

  lemma {:induction false} PlainTail(s: string)
    requires '_' !in s
    ensures TypeLabel(s, false) == s
  {
    if s != "" {
      PlainTail(s[1..]);
      assert s == [s[0]] + s[1..];
    }
  }

  lemma PlainLabel(s: string)
    requires s != "" && '_' !in s
    ensures TypeLabel(s) == [Upper(s[0])] + s[1..]
  {
    PlainTail(s[1..]);
  }

  lemma {:induction false} TwoPartTail(a: string, b: string)
    requires '_' !in a
    ensures TypeLabel(a + "_" + b, false) == a + TypeLabel(b)
  {
    if a != "" {
      assert (a + "_" + b)[1..] == a[1..] + "_" + b;
      TwoPartTail(a[1..], b);
      assert a == [a[0]] + a[1..];
    } else {
      assert (a + "_" + b)[1..] == b;
    }
  }

  lemma TwoPartLabel(a: string, b: string)
    requires a != "" && '_' !in a
    ensures TypeLabel(a + "_" + b) == [Upper(a[0])] + a[1..] + TypeLabel(b)
  {
    assert (a + "_" + b)[1..] == a[1..] + "_" + b;
    TwoPartTail(a[1..], b);
  }

  lemma LogTableLabel()
    ensures TypeLabel("log_table") == "LogTable"
  {
    hide TypeLabel;
    TwoPartLabel("log", "table");
    assert "log" + "_" + "table" == "log_table";
    PlainLabel("table");
  }

  lemma SomeTypeLabels(t: nat)
    requires t < 4
    ensures TypeLabel(NODE_TYPES[t]) == LABELS[t]
  {
    hide TypeLabel;
    match t
    case 0 => PlainLabel("controller");
    case 1 => PlainLabel("service");
    case 2 => PlainLabel("repository");
    case 3 => PlainLabel("table");
  }

  lemma OtherTypeLabels(t: nat)
    requires 4 < t < 10
    ensures TypeLabel(NODE_TYPES[t]) == LABELS[t]
  {
    hide TypeLabel;
    match t
    case 5 => PlainLabel("config");
    case 6 => PlainLabel("worker");
    case 7 => PlainLabel("event");
    case 8 => PlainLabel("command");
    case 9 => PlainLabel("validator");
  }

  lemma TypeLabelIs(t: nat)
    requires t < 10
    ensures TypeLabel(NODE_TYPES[t]) == LABELS[t] && '_' !in LABELS[t]
  {
    hide TypeLabel;
    if t < 4 { SomeTypeLabels(t); } else if t == 4 { LogTableLabel(); } else { OtherTypeLabels(t); }
  }

  lemma LabelsDiffer(t: nat, u: nat)
    requires t < 10 && u < 10 && LABELS[t] == LABELS[u]
    ensures t == u
  {
    assert LABELS[t][0] == LABELS[u][0] && |LABELS[t]| == |LABELS[u]|;
    assert LABELS[t][1] == LABELS[u][1];
  }

  lemma FamiliesDiffer(i: nat, j: nat)
    requires i < 8 && j < 8 && FAMILIES[i] == FAMILIES[j]
    ensures i == j
  {
    assert FAMILIES[i][0] == FAMILIES[j][0] && |FAMILIES[i]| == |FAMILIES[j]|;
  }

  lemma DomainNameInjective(d: nat, e: nat)
    requires DomainName(d) == DomainName(e)
    ensures d == e
  {
    PaddedHasNoUnderscore(d / 8 + 1, 6);
    PaddedHasNoUnderscore(e / 8 + 1, 6);
    LastSeparatorSplits('_', FAMILIES[d % 8], Padded(d / 8 + 1, 6), FAMILIES[e % 8], Padded(e / 8 + 1, 6));
    FamiliesDiffer(d % 8, e % 8);
    PaddedRoundTrip(d / 8 + 1, 6);
    PaddedRoundTrip(e / 8 + 1, 6);
  }

  lemma TenantIdExactly(d: nat, e: nat, tenants: nat)
    requires tenants > 0
    ensures TenantId(d, tenants) == TenantId(e, tenants) <==> d % tenants == e % tenants
  {
    PaddedRoundTrip(d % tenants + 1, 4);
    PaddedRoundTrip(e % tenants + 1, 4);
    assert TenantId(d, tenants)[7..] == Padded(d % tenants + 1, 4);
    assert TenantId(e, tenants)[7..] == Padded(e % tenants + 1, 4);
  }

  lemma VersionIdInjective(v: nat, w: nat)
    requires VersionId(v) == VersionId(w)
    ensures v == w
  {
    DecimalRoundTrip(v);
    DecimalRoundTrip(w);
    assert VersionId(v)[1..] == Decimal(v) && VersionId(w)[1..] == Decimal(w);
  }

  lemma SourceIdInjective(d: nat, t: NodeType, e: nat, u: NodeType)
    requires SourceId(d, t) == SourceId(e, u)
    ensures d == e && t == u
  {
    TypeLabelIs(t);
    TypeLabelIs(u);
    LastSeparatorSplits('_', DomainName(d), LABELS[t], DomainName(e), LABELS[u]);
    DomainNameInjective(d, e);
    LabelsDiffer(t, u);
  }

  /** A chunk identifier determines domain, type, instance and version. */
  lemma ChunkIdInjective(d: nat, t: NodeType, i: nat, v: nat, e: nat, u: NodeType, j: nat, w: nat)
    requires ChunkId(d, t, i, v) == ChunkId(e, u, j, w)
    ensures d == e && t == u && i == j && v == w
  {
    hide SourceId;
    NumbersSplit(SourceId(d, t), v, i, SourceId(e, u), w, j);
    SourceIdInjective(d, t, e, u);
  }

  lemma NumbersSplit(a: string, v: nat, i: nat, b: string, w: nat, j: nat)
    requires a + "_V" + Padded(v, 4) + "_" + Padded(i, 4) == b + "_V" + Padded(w, 4) + "_" + Padded(j, 4)
    ensures a == b && v == w && i == j
  {
    hide Padded;
    var x, y := Padded(v, 4), Padded(w, 4);
    PaddedHasNoUnderscore(v, 4);
    PaddedHasNoUnderscore(w, 4);
    PaddedHasNoUnderscore(i, 4);
    PaddedHasNoUnderscore(j, 4);
    LastSeparatorSplits('_', a + "_V" + x, Padded(i, 4), b + "_V" + y, Padded(j, 4));
    assert a + "_V" + x == a + "_" + ("V" + x) && b + "_V" + y == b + "_" + ("V" + y);
    LastSeparatorSplits('_', a, "V" + x, b, "V" + y);
    assert ("V" + x)[1..] == x && ("V" + y)[1..] == y;
    PaddedRoundTrip(i, 4);
    PaddedRoundTrip(j, 4);
    PaddedRoundTrip(v, 4);
    PaddedRoundTrip(w, 4);
  }

  // -------------------------------------------------------------------------------- formats

  /** Decimal digits of the number, as many as the width asks for, and no zero in front of more. */
  ghost predicate IsNumber(digits: string, n: nat, width: nat) {
    && (forall x | x in digits :: '0' <= x <= '9')
    && ValueOf(digits) == n && |digits| >= width && |digits| >= 1
    && (|digits| > width && |digits| > 1 ==> digits[0] != '0')
  }

  lemma {:induction false} DecimalIsNumber(n: nat)
    ensures IsNumber(Decimal(n), n, 0) && (n > 0 ==> Decimal(n)[0] != '0')
  {
    DecimalRoundTrip(n);
    hide ValueOf;
    if n >= 10 { DecimalIsNumber(n / 10); }
  }

  lemma PaddedIsNumber(n: nat, width: nat)
    ensures IsNumber(Padded(n, width), n, width)
  {
    DecimalIsNumber(n);
    PaddedRoundTrip(n, width);
  }

  /** The form of every name: which numbers and labels stand where. */
  lemma NamesReadBack(d: nat, tenants: nat, t: NodeType, i: nat, v: nat)
    returns (domain: string, tenant: string, version: string, padded: string, instance: string)
    requires tenants > 0
    ensures IsNumber(domain, d / 8 + 1, 6) && DomainName(d) == FAMILIES[d % 8] + "_" + domain
    ensures IsNumber(tenant, d % tenants + 1, 4) && TenantId(d, tenants) == "tenant_" + tenant
    ensures IsNumber(version, v, 1) && VersionId(v) == "v" + version
    ensures SourceId(d, t) == DomainName(d) + "_" + LABELS[t]
    ensures IsNumber(padded, v, 4) && IsNumber(instance, i, 4)
    ensures ChunkId(d, t, i, v) == SourceId(d, t) + "_V" + padded + "_" + instance
  {
    hide TypeLabel;
    hide ValueOf;
    domain, tenant, version := Padded(d / 8 + 1, 6), Padded(d % tenants + 1, 4), Decimal(v);
    padded, instance := Padded(v, 4), Padded(i, 4);
    PaddedIsNumber(d / 8 + 1, 6);
    PaddedIsNumber(d % tenants + 1, 4);
    DecimalIsNumber(v);
    PaddedIsNumber(v, 4);
    PaddedIsNumber(i, 4);
    TypeLabelIs(t);
  }
}
