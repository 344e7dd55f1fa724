/**
 The JSON text of the two catalogs as the configurator writes it: keys in order, a space behind each comma
 and colon, and every character that is not printable ASCII escaped. The text can be read in one way only,
 and its length is told by the lengths of what it holds.
 */
module CatalogText {
  import opened Values
  import opened HostFiles
  import opened Connectors
  import opened IssueReaders
  import Text

  // ---------------------------------------------------------------- one character

  predicate IsPlain(c: char) {
    ' ' <= c <= '~' && c != '"' && c != '\\'
  }

  /** The characters with an escape of two. */
  predicate IsShort(c: char) {
    c == '"' || c == '\\' || c == '\n' || c == '\r' || c == '\t' || c == 8 as char || c == 12 as char
  }

  function ShortName(c: char): (r: char)
    ensures IsShort(c) ==> r != 'u'
  {
    if c == '\n' then 'n'
    else if c == '\r' then 'r'
    else if c == '\t' then 't'
    else if c == 8 as char then 'b'
    else if c == 12 as char then 'f'
    else c
  }

  function HexDigit(d: nat): char
    requires d < 16
  {
    if d < 10 then ('0' as int + d) as char else ('a' as int + (d - 10)) as char
  }

  /** `{:04x}` */
  function Hex4(n: nat): (r: string)
    requires n < 0x10000
    ensures |r| == 4
  {
    var m := n / 16;
    [HexDigit(m / 16 / 16), HexDigit(m / 16 % 16), HexDigit(m % 16), HexDigit(n % 16)]
  }

  lemma HexDigitOnce(d: nat, e: nat)
    requires d < 16 && e < 16 && HexDigit(d) == HexDigit(e)
    ensures d == e
  {
  }

  lemma Hex4Once(m: nat, n: nat)
    requires m < 0x10000 && n < 0x10000 && Hex4(m) == Hex4(n)
    ensures m == n
  {
    var a, b := m / 16, n / 16;
    assert Hex4(m)[0] == Hex4(n)[0] && Hex4(m)[1] == Hex4(n)[1];
    assert Hex4(m)[2] == Hex4(n)[2] && Hex4(m)[3] == Hex4(n)[3];
    HexDigitOnce(a / 16 / 16, b / 16 / 16);
    HexDigitOnce(a / 16 % 16, b / 16 % 16);
    HexDigitOnce(a % 16, b % 16);
    HexDigitOnce(m % 16, n % 16);
  }

  function Unit(n: nat): (r: string)
    requires n < 0x10000
    ensures |r| == 6
  {
    "\\u" + Hex4(n)
  }

  lemma UnitFirst(m: nat, x: string, n: nat, y: string)
    requires m < 0x10000 && n < 0x10000 && Unit(m) + x == Unit(n) + y
    ensures m == n && x == y
  {
    var a, b := Unit(m) + x, Unit(n) + y;
    assert a[2..6] == Hex4(m) && b[2..6] == Hex4(n);
    Hex4Once(m, n);
    assert a[6..] == x && b[6..] == y;
  }

  /** A character beyond the basic plane is written as two units. */
  function EscapeChar(c: char): string {
    if IsPlain(c) then [c]
    else if IsShort(c) then ['\\', ShortName(c)]
    else if c as int < 0x10000 then Unit(c as int)
    else Unit(High(c)) + Unit(Low(c))
  }

  function High(c: char): nat
    requires 0x10000 <= c as int
  {
    0xD800 + (c as int - 0x10000) / 0x400
  }

  function Low(c: char): nat
    requires 0x10000 <= c as int
  {
    0xDC00 + (c as int - 0x10000) % 0x400
  }

  lemma PairOnce(c: char, x: string, d: char, y: string)
    requires 0x10000 <= c as int && 0x10000 <= d as int
    requires (Unit(High(c)) + Unit(Low(c))) + x == (Unit(High(d)) + Unit(Low(d))) + y
    ensures c == d && x == y
  {
    assert (Unit(High(c)) + Unit(Low(c))) + x == Unit(High(c)) + (Unit(Low(c)) + x);
    assert (Unit(High(d)) + Unit(Low(d))) + y == Unit(High(d)) + (Unit(Low(d)) + y);
    UnitFirst(High(c), Unit(Low(c)) + x, High(d), Unit(Low(d)) + y);
    UnitFirst(Low(c), x, Low(d), y);
    assert c as int - 0x10000 == (High(c) - 0xD800) * 0x400 + (Low(c) - 0xDC00);
    assert d as int - 0x10000 == (High(d) - 0xD800) * 0x400 + (Low(d) - 0xDC00);
  }

  /** Both are written as units: those of the basic plane are never the first of a pair. */
  lemma UnitsOnce(c: char, x: string, d: char, y: string)
    requires !IsPlain(c) && !IsShort(c) && !IsPlain(d) && !IsShort(d) && EscapeChar(c) + x == EscapeChar(d) + y
    ensures c == d && x == y
  {
    FirstUnit(c, x);
    FirstUnit(d, y);
    UnitFirst(UnitOf(c), AfterUnit(c) + x, UnitOf(d), AfterUnit(d) + y);
    if 0x10000 <= c as int {
      PairOnce(c, x, d, y);
    } else {
      assert AfterUnit(c) + x == x && AfterUnit(d) + y == y;
    }
  }

  function UnitOf(c: char): nat {
    if c as int < 0x10000 then c as int else High(c)
  }

  function AfterUnit(c: char): string {
    if c as int < 0x10000 then "" else Unit(Low(c))
  }

  lemma FirstUnit(c: char, x: string)
    requires !IsPlain(c) && !IsShort(c)
    ensures EscapeChar(c) + x == Unit(UnitOf(c)) + (AfterUnit(c) + x)
    ensures 0xD800 <= UnitOf(c) < 0xDC00 <==> 0x10000 <= c as int
  {
  }

  /** No escape is the beginning of another, */
  lemma EscapeCharFirst(c: char, x: string, d: char, y: string)
    requires EscapeChar(c) + x == EscapeChar(d) + y
    ensures c == d && x == y
  {
    var a, b := EscapeChar(c) + x, EscapeChar(d) + y;
    assert a[0] == b[0];
    if IsPlain(c) || IsPlain(d) {
      assert a[1..] == x && b[1..] == y;
    } else if IsShort(c) || IsShort(d) {
      assert a[1] == b[1];
      assert a[2..] == x && b[2..] == y;
    } else {
      UnitsOnce(c, x, d, y);
    }
  }

  lemma EscapeCharOpens(c: char)
    ensures EscapeChar(c) != "" && EscapeChar(c)[0] != '"'
  {
  }

  // ---------------------------------------------------------------- a text in quotes

  function Escape(s: string): string {
    if s == "" then "" else EscapeChar(s[0]) + Escape(s[1..])
  }

  /** so a text is told from what follows its closing quote. */
  lemma {:induction false} EscapeFirst(s: string, x: string, t: string, y: string)
    requires Escape(s) + ("\"" + x) == Escape(t) + ("\"" + y)
    ensures s == t && x == y
    decreases |s|
  {
    EndsOrGoesOn(s, x);
    EndsOrGoesOn(t, y);
    if s != "" && t != "" {
      EscapeCharFirst(s[0], Escape(s[1..]) + ("\"" + x), t[0], Escape(t[1..]) + ("\"" + y));
      EscapeFirst(s[1..], x, t[1..], y);
      assert s == [s[0]] + s[1..] && t == [t[0]] + t[1..];
    } else {
      Cancel("\"", x, y);
    }
  }

  /** A closing quote comes first exactly where the text is at its end. */
  lemma EndsOrGoesOn(s: string, x: string)
    ensures (Escape(s) + ("\"" + x))[0] == '"' <==> s == ""
    ensures s == "" ==> Escape(s) + ("\"" + x) == "\"" + x
    ensures s != "" ==> Escape(s) + ("\"" + x) == EscapeChar(s[0]) + (Escape(s[1..]) + ("\"" + x))
  {
    if s == "" {
      assert Escape(s) == "";
    } else {
      EscapeCharOpens(s[0]);
      Reassociate(EscapeChar(s[0]), Escape(s[1..]), "\"" + x);
      assert (Escape(s) + ("\"" + x))[0] == EscapeChar(s[0])[0];
    }
  }

  lemma Reassociate(a: string, b: string, c: string)
    ensures (a + b) + c == a + (b + c)
  {
  }

  lemma {:induction false} EscapeTogether(s: string, t: string)
    ensures Escape(s + t) == Escape(s) + Escape(t)
  {
    if s == "" {
      assert s + t == t;
    } else {
      assert (s + t)[1..] == s[1..] + t;
      EscapeTogether(s[1..], t);
    }
  }

  predicate AllPlain(s: string) {
    forall i :: 0 <= i < |s| ==> IsPlain(s[i])
  }

  lemma {:induction false} PlainStays(s: string)
    requires AllPlain(s)
    ensures Escape(s) == s
  {
    if s != "" {
      PlainStays(s[1..]);
    }
  }

  /** A text in quotes, with what follows it. */
  function Put(s: string, rest: string): string {
    "\"" + (Escape(s) + ("\"" + rest))
  }

  lemma PutFirst(s: string, x: string, t: string, y: string)
    requires Put(s, x) == Put(t, y)
    ensures s == t && x == y
  {
    Cancel("\"", Escape(s) + ("\"" + x), Escape(t) + ("\"" + y));
    EscapeFirst(s, x, t, y);
  }

  lemma Cancel(k: string, x: string, y: string)
    requires k + x == k + y
    ensures x == y
  {
    assert (k + x)[|k|..] == x && (k + y)[|k|..] == y;
  }

  function Last(s: string): char
    requires s != ""
  {
    s[|s| - 1]
  }

  lemma LastBehind(k: string, rest: string)
    requires rest != ""
    ensures k + rest != "" && Last(k + rest) == Last(rest)
  {
  }

  lemma PutLast(s: string, rest: string)
    requires rest != ""
    ensures Put(s, rest) != "" && Last(Put(s, rest)) == Last(rest)
  {
    LastBehind("\"", rest);
    LastBehind(Escape(s), "\"" + rest);
  }

  // ---------------------------------------------------------------- a list

  function Items<T>(xs: seq<T>, item: (T, string) -> string, rest: string): string {
    if xs == [] then "]" + rest else ", " + item(xs[0], Items(xs[1..], item, rest))
  }

  /** A list in brackets, with what follows it. */
  function ListText<T>(xs: seq<T>, item: (T, string) -> string, rest: string): string {
    "[" + if xs == [] then "]" + rest else item(xs[0], Items(xs[1..], item, rest))
  }

  /** An item is told from what follows it, and does not begin with the closing bracket. */
  ghost predicate IsItem<T(!new)>(item: (T, string) -> string) {
    && (forall a, x, b, y :: item(a, x) == item(b, y) ==> a == b && x == y)
    && (forall a, x :: item(a, x) != "" && item(a, x)[0] != ']')
  }

  lemma {:induction false} ItemsFirst<T(!new)>(s: seq<T>, x: string, t: seq<T>, y: string, item: (T, string) -> string)
    requires IsItem(item) && Items(s, item, x) == Items(t, item, y)
    ensures s == t && x == y
    decreases |s|
  {
    var a, b := Items(s, item, x), Items(t, item, y);
    assert a[0] == b[0];
    if s == [] {
      assert a[1..] == x && b[1..] == y;
    } else {
      Cancel(", ", item(s[0], Items(s[1..], item, x)), item(t[0], Items(t[1..], item, y)));
      ItemsFirst(s[1..], x, t[1..], y, item);
      assert s == [s[0]] + s[1..] && t == [t[0]] + t[1..];
    }
  }

  lemma ListFirst<T(!new)>(s: seq<T>, x: string, t: seq<T>, y: string, item: (T, string) -> string)
    requires IsItem(item) && ListText(s, item, x) == ListText(t, item, y)
    ensures s == t && x == y
  {
    var a, b := ListText(s, item, x), ListText(t, item, y);
    assert a[1] == b[1];
    if s == [] || t == [] {
      assert a[2..] == b[2..];
      assert s == [] && t == [] ==> a[2..] == x && b[2..] == y;
    } else {
      Cancel("[", item(s[0], Items(s[1..], item, x)), item(t[0], Items(t[1..], item, y)));
      ItemsFirst(s[1..], x, t[1..], y, item);
      assert s == [s[0]] + s[1..] && t == [t[0]] + t[1..];
    }
  }

  /** The lengths of the items, with the commas between them. */
  function Length<T>(xs: seq<T>, size: T -> nat): nat {
    if xs == [] then 0 else size(xs[0]) + Spread(xs[1..], size)
  }

  function Spread<T>(xs: seq<T>, size: T -> nat): nat {
    if xs == [] then 0 else 2 + size(xs[0]) + Spread(xs[1..], size)
  }

  /** An item ends as what follows it does. */
  ghost predicate Carries<T(!new)>(item: (T, string) -> string) {
    forall a, x :: x != "" ==> item(a, x) != "" && Last(item(a, x)) == Last(x)
  }

  lemma {:induction false} ItemsLast<T(!new)>(xs: seq<T>, item: (T, string) -> string, rest: string)
    requires Carries(item) && rest != ""
    ensures Items(xs, item, rest) != "" && Last(Items(xs, item, rest)) == Last(rest)
  {
    if xs != [] {
      ItemsLast(xs[1..], item, rest);
      LastBehind(", ", item(xs[0], Items(xs[1..], item, rest)));
    }
  }

  lemma ListLast<T(!new)>(xs: seq<T>, item: (T, string) -> string, rest: string)
    requires Carries(item) && rest != ""
    ensures ListText(xs, item, rest) != "" && Last(ListText(xs, item, rest)) == Last(rest)
  {
    if xs != [] {
      ItemsLast(xs[1..], item, rest);
    }
  }

  ghost predicate Sizes<T(!new)>(item: (T, string) -> string, size: T -> nat) {
    forall a, x :: |item(a, x)| == size(a) + |x|
  }

  lemma {:induction false} ItemsLength<T(!new)>(xs: seq<T>, item: (T, string) -> string, rest: string, size: T -> nat)
    requires Sizes(item, size)
    ensures |Items(xs, item, rest)| == Spread(xs, size) + 1 + |rest|
  {
    if xs != [] {
      ItemsLength(xs[1..], item, rest, size);
    }
  }

  lemma ListLength<T(!new)>(xs: seq<T>, item: (T, string) -> string, rest: string, size: T -> nat)
    requires Sizes(item, size)
    ensures |ListText(xs, item, rest)| == Length(xs, size) + 2 + |rest|
  {
    if xs != [] {
      ItemsLength(xs[1..], item, rest, size);
    }
  }

  lemma {:induction false} SpreadBetween<T>(xs: seq<T>, size: T -> nat, low: nat, high: nat)
    requires forall i :: 0 <= i < |xs| ==> low <= size(xs[i]) <= high
    ensures (low + 2) * |xs| <= Spread(xs, size) <= (high + 2) * |xs|
  {
    if xs != [] {
      assert forall i :: 0 <= i < |xs[1..]| ==> xs[1..][i] == xs[i + 1];
      SpreadBetween(xs[1..], size, low, high);
      assert (low + 2) * |xs| == (low + 2) * |xs[1..]| + (low + 2);
      assert (high + 2) * |xs| == (high + 2) * |xs[1..]| + (high + 2);
    }
  }

  /** The length of a list of similar items. */
  lemma LengthBetween<T>(xs: seq<T>, size: T -> nat, low: nat, high: nat)
    requires xs != [] && forall i :: 0 <= i < |xs| ==> low <= size(xs[i]) <= high
    ensures (low + 2) * |xs| - 2 <= Length(xs, size) <= (high + 2) * |xs| - 2
  {
    assert forall i :: 0 <= i < |xs[1..]| ==> xs[1..][i] == xs[i + 1];
    SpreadBetween(xs[1..], size, low, high);
    assert (low + 2) * |xs| == (low + 2) * |xs[1..]| + (low + 2);
    assert (high + 2) * |xs| == (high + 2) * |xs[1..]| + (high + 2);
  }

  /** The length of a list of at most so many of them. */
  lemma LengthOfMany<T>(xs: seq<T>, size: T -> nat, low: nat, high: nat, n: nat)
    requires 0 < |xs| <= n && forall i :: 0 <= i < |xs| ==> low <= size(xs[i]) <= high
    ensures Length(xs, size) <= (high + 2) * n - 2
    ensures |xs| == n ==> (low + 2) * n - 2 <= Length(xs, size)
  {
    LengthBetween(xs, size, low, high);
    Times(high + 2, |xs|, n);
  }

  lemma Times(k: nat, m: nat, n: nat)
    requires m <= n
    ensures k * m <= k * n
  {
    assert k * n == k * m + k * (n - m);
  }

  // ---------------------------------------------------------------- connectors

  const CONFIGURATION_KEY: string := "{\"configuration_file\": "
  const CREDENTIAL_KEY: string := ", \"credential_file\": "
  const PROFILE_KEY: string := ", \"credential_profile\": "
  const KIND_KEY: string := ", \"kind\": "
  const CONNECTORS_KEY: string := "{\"connectors\": "
  const VERSION: string := ", \"version\": 1}"

  function ConnectorText(c: Connector, rest: string): string {
    CONFIGURATION_KEY + Put(c.configuration, CREDENTIAL_KEY + Put(c.credential,
      PROFILE_KEY + Put(c.profile, KIND_KEY + Put(c.kind, "}" + rest))))
  }

  function ConnectorSize(c: Connector): nat {
    87 + |Escape(c.configuration)| + |Escape(c.credential)| + |Escape(c.profile)| + |Escape(c.kind)|
  }

  lemma ConnectorFirst(c: Connector, x: string, d: Connector, y: string)
    requires ConnectorText(c, x) == ConnectorText(d, y)
    ensures c == d && x == y
  {
    var c4, d4 := Put(c.kind, "}" + x), Put(d.kind, "}" + y);
    var c3, d3 := Put(c.profile, KIND_KEY + c4), Put(d.profile, KIND_KEY + d4);
    var c2, d2 := Put(c.credential, PROFILE_KEY + c3), Put(d.credential, PROFILE_KEY + d3);
    Cancel(CONFIGURATION_KEY, Put(c.configuration, CREDENTIAL_KEY + c2), Put(d.configuration, CREDENTIAL_KEY + d2));
    PutFirst(c.configuration, CREDENTIAL_KEY + c2, d.configuration, CREDENTIAL_KEY + d2);
    Cancel(CREDENTIAL_KEY, c2, d2);
    PutFirst(c.credential, PROFILE_KEY + c3, d.credential, PROFILE_KEY + d3);
    Cancel(PROFILE_KEY, c3, d3);
    PutFirst(c.profile, KIND_KEY + c4, d.profile, KIND_KEY + d4);
    Cancel(KIND_KEY, c4, d4);
    PutFirst(c.kind, "}" + x, d.kind, "}" + y);
    Cancel("}", x, y);
  }

  lemma ConnectorLast(c: Connector, x: string)
    requires x != ""
    ensures ConnectorText(c, x) != "" && Last(ConnectorText(c, x)) == Last(x)
  {
    var c4 := Put(c.kind, "}" + x);
    PutLast(c.kind, "}" + x);
    var c3 := Put(c.profile, KIND_KEY + c4);
    PutLast(c.profile, KIND_KEY + c4);
    var c2 := Put(c.credential, PROFILE_KEY + c3);
    PutLast(c.credential, PROFILE_KEY + c3);
    PutLast(c.configuration, CREDENTIAL_KEY + c2);
  }

  function ConnectorItem(): (Connector, string) -> string {
    (c, rest) => ConnectorText(c, rest)
  }

  lemma ConnectorItems()
    ensures IsItem(ConnectorItem()) && Carries(ConnectorItem()) && Sizes(ConnectorItem(), ConnectorSize)
  {
    forall c, x | x != "" ensures ConnectorItem()(c, x) != "" && Last(ConnectorItem()(c, x)) == Last(x) {
      ConnectorLast(c, x);
    }
    forall c, x, d, y | ConnectorItem()(c, x) == ConnectorItem()(d, y) ensures c == d && x == y {
      ConnectorFirst(c, x, d, y);
    }
    assert CONFIGURATION_KEY[0] == '{';
  }

  /** The catalog of connectors. */
  function ConnectorsJson(cs: seq<Connector>): string {
    CONNECTORS_KEY + ListText(cs, ConnectorItem(), VERSION)
  }

  lemma ConnectorsJsonOnce(a: seq<Connector>, b: seq<Connector>)
    requires ConnectorsJson(a) == ConnectorsJson(b)
    ensures a == b
  {
    ConnectorItems();
    Cancel(CONNECTORS_KEY, ListText(a, ConnectorItem(), VERSION), ListText(b, ConnectorItem(), VERSION));
    ListFirst(a, VERSION, b, VERSION, ConnectorItem());
  }

  lemma ConnectorsJsonLast(cs: seq<Connector>)
    ensures ConnectorsJson(cs) != "" && Last(ConnectorsJson(cs)) == '}'
  {
    ConnectorItems();
    ListLast(cs, ConnectorItem(), VERSION);
    assert VERSION[14] == '}';
  }

  lemma ConnectorsJsonLength(cs: seq<Connector>)
    ensures |ConnectorsJson(cs)| == 32 + Length(cs, ConnectorSize)
  {
    ConnectorItems();
    ListLength(cs, ConnectorItem(), VERSION, ConnectorSize);
  }

  // ---------------------------------------------------------------- readers

  const READER_KEY: string := "{\"credential_file\": "
  const EXPIRY_KEY: string := ", \"expires_at_unix_ms\": "
  const ID_KEY: string := ", \"id\": "
  const ISSUES_KEY: string := ", \"issue_ids\": "
  const PROJECT_KEY: string := ", \"project_id\": "
  const READERS_KEY: string := "{\"readers\": "

  function Signed(n: int): string {
    if n < 0 then "-" + Text.Decimal(-n) else Text.Decimal(n)
  }

  lemma SignedOnce(m: int, n: int)
    requires Signed(m) == Signed(n)
    ensures m == n
  {
    Text.DecimalValue(if m < 0 then -m else m);
    Text.DecimalValue(if n < 0 then -n else n);
    assert Signed(m)[0] == Signed(n)[0];
    if m < 0 && n < 0 {
      assert Signed(m)[1..] == Text.Decimal(-m) && Signed(n)[1..] == Text.Decimal(-n);
    }
  }

  lemma SignedHasNoComma(n: int)
    ensures ',' !in Signed(n)
  {
    Text.DecimalValue(if n < 0 then -n else n);
    var digits := Text.Decimal(if n < 0 then -n else n);
    assert forall i :: 0 <= i < |digits| ==> Text.IsDigit(digits[i]);
  }

  lemma {:induction false} CommaFirst(a: string, x: string, b: string, y: string)
    requires ',' !in a && ',' !in b && x != "" && y != "" && x[0] == ',' && y[0] == ',' && a + x == b + y
    ensures a == b && x == y
    decreases |a|
  {
    assert (a + x)[0] == (b + y)[0] && (a + x)[1..] == (b + y)[1..];
    if a != "" && b != "" {
      assert (a + x)[1..] == a[1..] + x && (b + y)[1..] == b[1..] + y;
      CommaFirst(a[1..], x, b[1..], y);
      assert a == [a[0]] + a[1..] && b == [b[0]] + b[1..];
    } else {
      assert (a == "" ==> a + x == x) && (b == "" ==> b + y == y);
    }
  }

  function IssueItem(): (string, string) -> string {
    (s, rest) => Put(s, rest)
  }

  function IssueSize(s: string): nat {
    2 + |Escape(s)|
  }

  lemma IssueItems()
    ensures IsItem(IssueItem()) && Carries(IssueItem()) && Sizes(IssueItem(), IssueSize)
  {
    forall s, x | x != "" ensures IssueItem()(s, x) != "" && Last(IssueItem()(s, x)) == Last(x) {
      PutLast(s, x);
    }
    forall s, x, t, y | IssueItem()(s, x) == IssueItem()(t, y) ensures s == t && x == y {
      PutFirst(s, x, t, y);
    }
  }

  function IssuesText(issues: Option<seq<string>>, rest: string): string {
    if issues.None? then rest else ISSUES_KEY + ListText(issues.value, IssueItem(), rest)
  }

  function IssuesSize(issues: Option<seq<string>>): nat {
    if issues.None? then 0 else 17 + Length(issues.value, IssueSize)
  }

  lemma IssuesFirst(s: Option<seq<string>>, x: string, t: Option<seq<string>>, y: string)
    requires IssuesText(s, PROJECT_KEY + x) == IssuesText(t, PROJECT_KEY + y)
    ensures s == t && x == y
  {
    var a, b := IssuesText(s, PROJECT_KEY + x), IssuesText(t, PROJECT_KEY + y);
    assert ISSUES_KEY[3] == 'i' && PROJECT_KEY[3] == 'p';
    assert a[3] == b[3];
    if s.Some? {
      var v, w := ListText(s.value, IssueItem(), PROJECT_KEY + x), ListText(t.value, IssueItem(), PROJECT_KEY + y);
      Cancel(ISSUES_KEY, v, w);
      IssueItems();
      ListFirst(s.value, PROJECT_KEY + x, t.value, PROJECT_KEY + y, IssueItem());
    }
    Cancel(PROJECT_KEY, x, y);
  }

  lemma IssuesLength(issues: Option<seq<string>>, rest: string)
    ensures |IssuesText(issues, rest)| == IssuesSize(issues) + |rest|
  {
    IssueItems();
    if issues.Some? {
      ListLength(issues.value, IssueItem(), rest, IssueSize);
    }
  }

  function ReaderTail(r: Reader, rest: string): string {
    ID_KEY + Put(r.id, IssuesText(r.issues, PROJECT_KEY + Put(r.project, "}" + rest)))
  }

  function ReaderText(r: Reader, rest: string): string {
    READER_KEY + Put(r.credential, EXPIRY_KEY + (Signed(r.expiry) + ReaderTail(r, rest)))
  }

  function ReaderSize(r: Reader): nat {
    75 + |Escape(r.credential)| + |Signed(r.expiry)| + |Escape(r.id)| + IssuesSize(r.issues) + |Escape(r.project)|
  }

  lemma TailFirst(r: Reader, x: string, q: Reader, y: string)
    requires ReaderTail(r, x) == ReaderTail(q, y)
    ensures r.id == q.id && r.issues == q.issues && r.project == q.project && x == y
  {
    var v, w := Put(r.project, "}" + x), Put(q.project, "}" + y);
    var a, b := IssuesText(r.issues, PROJECT_KEY + v), IssuesText(q.issues, PROJECT_KEY + w);
    Cancel(ID_KEY, Put(r.id, a), Put(q.id, b));
    PutFirst(r.id, a, q.id, b);
    IssuesFirst(r.issues, v, q.issues, w);
    PutFirst(r.project, "}" + x, q.project, "}" + y);
    Cancel("}", x, y);
  }

  lemma ReaderFirst(r: Reader, x: string, q: Reader, y: string)
    requires ReaderText(r, x) == ReaderText(q, y)
    ensures r == q && x == y
  {
    var a, b := Signed(r.expiry) + ReaderTail(r, x), Signed(q.expiry) + ReaderTail(q, y);
    Cancel(READER_KEY, Put(r.credential, EXPIRY_KEY + a), Put(q.credential, EXPIRY_KEY + b));
    PutFirst(r.credential, EXPIRY_KEY + a, q.credential, EXPIRY_KEY + b);
    Cancel(EXPIRY_KEY, a, b);
    SignedHasNoComma(r.expiry);
    SignedHasNoComma(q.expiry);
    assert ID_KEY[0] == ',';
    CommaFirst(Signed(r.expiry), ReaderTail(r, x), Signed(q.expiry), ReaderTail(q, y));
    SignedOnce(r.expiry, q.expiry);
    TailFirst(r, x, q, y);
  }

  lemma IssuesLast(issues: Option<seq<string>>, rest: string)
    requires rest != ""
    ensures IssuesText(issues, rest) != "" && Last(IssuesText(issues, rest)) == Last(rest)
  {
    if issues.Some? {
      IssueItems();
      ListLast(issues.value, IssueItem(), rest);
      LastBehind(ISSUES_KEY, ListText(issues.value, IssueItem(), rest));
    }
  }

  lemma TailLast(r: Reader, x: string)
    requires x != ""
    ensures ReaderTail(r, x) != "" && Last(ReaderTail(r, x)) == Last(x)
  {
    LastBehind("}", x);
    PutLast(r.project, "}" + x);
    LastBehind(PROJECT_KEY, Put(r.project, "}" + x));
    var issues := IssuesText(r.issues, PROJECT_KEY + Put(r.project, "}" + x));
    IssuesLast(r.issues, PROJECT_KEY + Put(r.project, "}" + x));
    PutLast(r.id, issues);
    LastBehind(ID_KEY, Put(r.id, issues));
  }

  lemma ReaderLast(r: Reader, x: string)
    requires x != ""
    ensures ReaderText(r, x) != "" && Last(ReaderText(r, x)) == Last(x)
  {
    var tail := Signed(r.expiry) + ReaderTail(r, x);
    TailLast(r, x);
    LastBehind(Signed(r.expiry), ReaderTail(r, x));
    LastBehind(EXPIRY_KEY, tail);
    PutLast(r.credential, EXPIRY_KEY + tail);
    LastBehind(READER_KEY, Put(r.credential, EXPIRY_KEY + tail));
  }

  function ReaderItem(): (Reader, string) -> string {
    (r, rest) => ReaderText(r, rest)
  }

  lemma ReaderLength(r: Reader, rest: string)
    ensures |ReaderText(r, rest)| == ReaderSize(r) + |rest|
  {
    IssuesLength(r.issues, PROJECT_KEY + Put(r.project, "}" + rest));
  }

  lemma ReaderItems()
    ensures IsItem(ReaderItem()) && Carries(ReaderItem()) && Sizes(ReaderItem(), ReaderSize)
  {
    forall r, x | x != "" ensures ReaderItem()(r, x) != "" && Last(ReaderItem()(r, x)) == Last(x) {
      ReaderLast(r, x);
    }
    forall r, x, q, y | ReaderItem()(r, x) == ReaderItem()(q, y) ensures r == q && x == y {
      ReaderFirst(r, x, q, y);
    }
    forall r, x ensures |ReaderItem()(r, x)| == ReaderSize(r) + |x| {
      ReaderLength(r, x);
    }
    assert READER_KEY[0] == '{';
  }

  /** The catalog of readers. */
  function ReadersJson(rs: seq<Reader>): string {
    READERS_KEY + ListText(rs, ReaderItem(), VERSION)
  }

  lemma ReadersJsonOnce(a: seq<Reader>, b: seq<Reader>)
    requires ReadersJson(a) == ReadersJson(b)
    ensures a == b
  {
    ReaderItems();
    Cancel(READERS_KEY, ListText(a, ReaderItem(), VERSION), ListText(b, ReaderItem(), VERSION));
    ListFirst(a, VERSION, b, VERSION, ReaderItem());
  }

  lemma ReadersJsonLast(rs: seq<Reader>)
    ensures ReadersJson(rs) != "" && Last(ReadersJson(rs)) == '}'
  {
    ReaderItems();
    ListLast(rs, ReaderItem(), VERSION);
    assert VERSION[14] == '}';
  }

  lemma ReadersJsonLength(rs: seq<Reader>)
    ensures |ReadersJson(rs)| == 29 + Length(rs, ReaderSize)
  {
    ReaderItems();
    ListLength(rs, ReaderItem(), VERSION, ReaderSize);
  }
}
