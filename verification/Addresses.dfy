/** Account addresses `user@host[:port]`, and when two of them name the same account. The URL parser
    is a parameter: it finds the host in an authority, or rejects it. */
module Addresses {
  import opened Wrappers
  import opened Text

  type HostParser = string -> Option<string>

  /** The parser does not look at letter case. */
  ghost predicate CaseBlind(host: HostParser) {
    forall a :: host(Lower(a)) == host(a)
  }

  datatype Address = Address(user: string, host: string, port: Option<nat>)

  // ---------------------------------------------------------------------------
  // Splitting
  // ---------------------------------------------------------------------------

  function SplitOnce(s: string, sep: char): (r: Option<(string, string)>)
    ensures r.Some? ==> s == r.value.0 + [sep] + r.value.1 && sep !in r.value.0
    ensures r.None? <==> sep !in s
  {
    if s == "" then None
    else if s[0] == sep then Some(("", s[1..]))
    else
      assert s == [s[0]] + s[1..];
      match SplitOnce(s[1..], sep)
      case None => None
      case Some(r) => Some(([s[0]] + r.0, r.1))
  }

  function RSplitOnce(s: string, sep: char): (r: Option<(string, string)>)
    ensures r.Some? ==> s == r.value.0 + [sep] + r.value.1 && sep !in r.value.1
    ensures r.None? <==> sep !in s
  {
    if s == "" then None
    else
      var n := |s| - 1;
      assert s == s[..n] + [s[n]];
      if s[n] == sep then Some((s[..n], ""))
      else
        match RSplitOnce(s[..n], sep)
        case None => None
        case Some(r) => Some((r.0, r.1 + [s[n]]))
  }

  predicate IsDigit(c: char) {
    '0' <= c <= '9'
  }

  predicate AllDigits(s: string) {
    forall i :: 0 <= i < |s| ==> IsDigit(s[i])
  }

  function ParseDecimal(s: string): nat
    requires AllDigits(s)
  {
    if s == "" then 0 else 10 * ParseDecimal(s[..|s| - 1]) + (s[|s| - 1] as int - '0' as int)
  }

  const U16_MAX: nat := 0xFFFF

  /** A non-empty run of digits that fits a u16. */
  function ParsePort(s: string): Option<nat> {
    if s == "" || !AllDigits(s) || ParseDecimal(s) > U16_MAX then None else Some(ParseDecimal(s))
  }

  /** `extract_explicit_port` */
  function ExplicitPort(authority: string): Option<nat> {
    var a := Trim(authority);
    if a != "" && a[0] == '[' then PortAfterBracket(a[1..]) else PortAfterColon(a)
  }

  function PortAfterBracket(rest: string): Option<nat> {
    match SplitOnce(rest, ']')
    case None => None
    case Some(r) => if r.1 != "" && r.1[0] == ':' then ParsePort(r.1[1..]) else None
  }

  function PortAfterColon(a: string): Option<nat> {
    match RSplitOnce(a, ':')
    case None => None
    case Some(r) => if r.0 == "" || ':' in r.0 then None else ParsePort(r.1)
  }

  /** `parse_account_address` */
  function Parse(host: HostParser, s: string): Option<Address> {
    match SplitOnce(s, '@')
    case None => None
    case Some(r) =>
      if host(r.1).None? then None
      else Some(Address(Lower(r.0), Lower(host(r.1).value), ExplicitPort(r.1)))
  }

  /** `account_addresses_match` */
  predicate Match(host: HostParser, left: string, right: string, defaultPort: Option<nat>) {
    match (Parse(host, left), Parse(host, right))
    case (Some(l), Some(r)) =>
      && l.user == r.user && l.host == r.host
      && (if defaultPort.Some? then l.port.UnwrapOr(defaultPort.value) == r.port.UnwrapOr(defaultPort.value)
          else l.port == r.port)
    case _ => SameFold(left, right)
  }

  // ---------------------------------------------------------------------------
  // Matching is an equivalence
  // ---------------------------------------------------------------------------

  /** No letter folds to or from a separator, a digit or white space. */
  predicate Uncased(c: char) {
    !('A' <= c <= 'Z') && !('a' <= c <= 'z')
  }

  lemma LowerSlice(s: string, i: nat, j: nat)
    requires i <= j <= |s|
    ensures Lower(s)[i..j] == Lower(s[i..j])
  {
  }

  lemma LowerHead(s: string)
    requires s != ""
    ensures Lower(s) != "" && Lower(s)[0] == LowerChar(s[0]) && Lower(s)[1..] == Lower(s[1..])
  {
  }

  lemma LowerCons(c: char, s: string)
    ensures Lower([c] + s) == [LowerChar(c)] + Lower(s)
  {
  }

  lemma {:induction false} SplitOnceFolds(s: string, sep: char)
    requires Uncased(sep)
    ensures SplitOnce(Lower(s), sep)
         == match SplitOnce(s, sep) case None => None case Some(r) => Some((Lower(r.0), Lower(r.1)))
  {
    if s != "" {
      LowerHead(s);
      if s[0] != sep {
        SplitOnceFolds(s[1..], sep);
        if SplitOnce(s[1..], sep).Some? {
          LowerCons(s[0], SplitOnce(s[1..], sep).value.0);
        }
      }
    }
  }

  lemma LowerLast(s: string)
    requires s != ""
    ensures |Lower(s)| == |s| && Lower(s)[|s| - 1] == LowerChar(s[|s| - 1]) && Lower(s)[..|s| - 1] == Lower(s[..|s| - 1])
  {
  }

  lemma LowerSnoc(s: string, c: char)
    ensures Lower(s + [c]) == Lower(s) + [LowerChar(c)]
  {
  }

  lemma {:induction false} RSplitOnceFolds(s: string, sep: char)
    requires Uncased(sep)
    ensures RSplitOnce(Lower(s), sep)
         == match RSplitOnce(s, sep) case None => None case Some(r) => Some((Lower(r.0), Lower(r.1)))
  {
    if s != "" {
      var n := |s| - 1;
      LowerLast(s);
      if s[n] != sep {
        RSplitOnceFolds(s[..n], sep);
        if RSplitOnce(s[..n], sep).Some? {
          LowerSnoc(RSplitOnce(s[..n], sep).value.1, s[n]);
        }
      }
    }
  }

  lemma {:induction false} TrimEndFolds(s: string)
    ensures TrimEnd(Lower(s)) == Lower(TrimEnd(s))
  {
    if s != "" {
      LowerSlice(s, 0, |s| - 1);
      TrimEndFolds(s[..|s| - 1]);
    }
  }

  lemma {:induction false} TrimStartFolds(s: string)
    ensures TrimStart(Lower(s)) == Lower(TrimStart(s))
  {
    if s != "" {
      assert Lower(s)[1..] == Lower(s[1..]);
      assert IsSpace(Lower(s)[0]) <==> IsSpace(s[0]);
      TrimStartFolds(s[1..]);
    }
  }

  lemma ParsePortFolds(s: string)
    ensures ParsePort(Lower(s)) == ParsePort(s)
  {
    if AllDigits(s) {
      assert Lower(s) == s;
    } else {
      var i :| 0 <= i < |s| && !IsDigit(s[i]);
      assert !IsDigit(Lower(s)[i]);
    }
  }

  lemma InFolded(s: string, c: char)
    requires Uncased(c)
    ensures c in Lower(s) <==> c in s
  {
    if c in s {
      var i :| 0 <= i < |s| && s[i] == c;
      assert Lower(s)[i] == c;
    }
  }

  lemma PortAfterBracketFolds(rest: string)
    ensures PortAfterBracket(Lower(rest)) == PortAfterBracket(rest)
  {
    SplitOnceFolds(rest, ']');
    if SplitOnce(rest, ']').Some? {
      var tail := SplitOnce(rest, ']').value.1;
      if tail != "" {
        assert Lower(tail)[1..] == Lower(tail[1..]);
        assert Lower(tail)[0] == ':' <==> tail[0] == ':';
        ParsePortFolds(tail[1..]);
      }
    }
  }

  lemma PortAfterColonFolds(a: string)
    ensures PortAfterColon(Lower(a)) == PortAfterColon(a)
  {
    RSplitOnceFolds(a, ':');
    if RSplitOnce(a, ':').Some? {
      InFolded(RSplitOnce(a, ':').value.0, ':');
      ParsePortFolds(RSplitOnce(a, ':').value.1);
    }
  }

  lemma ExplicitPortFolds(authority: string)
    ensures ExplicitPort(Lower(authority)) == ExplicitPort(authority)
  {
    TrimStartFolds(authority);
    TrimEndFolds(TrimStart(authority));
    var a := Trim(authority);
    assert Trim(Lower(authority)) == Lower(a);
    if a != "" {
      assert Lower(a)[0] == '[' <==> a[0] == '[';
      assert Lower(a)[1..] == Lower(a[1..]);
      PortAfterBracketFolds(a[1..]);
    }
    PortAfterColonFolds(a);
  }

  lemma ParseFolds(host: HostParser, s: string)
    requires CaseBlind(host)
    ensures Parse(host, Lower(s)) == Parse(host, s)
  {
    SplitOnceFolds(s, '@');
    if SplitOnce(s, '@').Some? {
      var r := SplitOnce(s, '@').value;
      LowerTwice(r.0);
      ExplicitPortFolds(r.1);
    }
  }

  /** What an address stands for: the account with its port made explicit, or the folded text of
      something that is no address. */
  datatype Account = Account(user: string, host: string, port: Option<nat>) | Other(folded: string)

  function AccountOf(host: HostParser, s: string, defaultPort: Option<nat>): Account {
    match Parse(host, s)
    case None => Other(Lower(s))
    case Some(a) =>
      Account.Account(a.user, a.host, if defaultPort.Some? then Some(a.port.UnwrapOr(defaultPort.value)) else a.port)
  }

  /** Two addresses match exactly when they stand for the same account; so matching is reflexive,
      symmetric and transitive. */
  lemma MatchIffSameAccount(host: HostParser, left: string, right: string, defaultPort: Option<nat>)
    requires CaseBlind(host)
    ensures Match(host, left, right, defaultPort) <==> AccountOf(host, left, defaultPort) == AccountOf(host, right, defaultPort)
  {
    ParseFolds(host, left);
    ParseFolds(host, right);
  }

  lemma FoldedMatch(host: HostParser, left: string, right: string, defaultPort: Option<nat>)
    requires CaseBlind(host) && SameFold(left, right)
    ensures AccountOf(host, left, defaultPort) == AccountOf(host, right, defaultPort)
  {
    ParseFolds(host, left);
    ParseFolds(host, right);
  }

  // ---------------------------------------------------------------------------
  // Candidate spellings
  // ---------------------------------------------------------------------------

  function Decimal(n: nat): string {
    if n < 10 then [('0' as int + n) as char] else Decimal(n / 10) + [('0' as int + n % 10) as char]
  }

  lemma {:induction false} DecimalReadsBack(n: nat)
    ensures AllDigits(Decimal(n)) && ParseDecimal(Decimal(n)) == n
  {
    if n < 10 {
      assert Decimal(n)[..0] == "";
    } else {
      DecimalReadsBack(n / 10);
      assert Decimal(n)[..|Decimal(n)| - 1] == Decimal(n / 10);
    }
  }

  function PortText(port: Option<nat>): string {
    if port.Some? then ":" + Decimal(port.value) else ""
  }

  function FormatHost(host: string): string {
    if ':' in host then "[" + host + "]" else host
  }

  function Format(user: string, host: string, port: Option<nat>): string {
    user + "@" + FormatHost(host) + PortText(port)
  }

  predicate Listed(values: seq<string>, s: string) {
    exists v :: v in values && SameFold(v, s)
  }

  function PushUnique(values: seq<string>, candidate: string): seq<string> {
    if Listed(values, candidate) then values else values + [candidate]
  }

  /** `equivalent_account_address_candidates` */
  function Candidates(host: HostParser, target: string, defaultPort: Option<nat>): seq<string> {
    match Parse(host, target)
    case None => PushUnique([], target)
    case Some(a) => PushSpellings(PushUnique([], target), a, defaultPort)
  }

  function PushSpellings(values: seq<string>, a: Address, defaultPort: Option<nat>): seq<string> {
    var bare := Format(a.user, a.host, None);
    if a.port.Some? then
      var c := PushUnique(values, Format(a.user, a.host, a.port));
      if defaultPort == a.port then PushUnique(c, bare) else c
    else
      var c := PushUnique(values, bare);
      if defaultPort.Some? then PushUnique(c, Format(a.user, a.host, defaultPort)) else c
  }

  lemma PushLists(values: seq<string>, candidate: string, s: string)
    ensures Listed(PushUnique(values, candidate), s) <==> Listed(values, s) || SameFold(candidate, s)
  {
    if SameFold(candidate, s) && Listed(values, candidate) {
      var v :| v in values && SameFold(v, candidate);
      assert SameFold(v, s);
    }
    if Listed(values, s) {
      var v :| v in values && SameFold(v, s);
      assert v in PushUnique(values, candidate);
    }
    if !Listed(values, candidate) {
      assert candidate in PushUnique(values, candidate);
    }
  }

  /** The ports under which the target's account is looked up. */
  function PortsTried(port: Option<nat>, defaultPort: Option<nat>): set<Option<nat>> {
    if port.Some? then {port} + (if defaultPort == port then {None} else {})
    else {None} + (if defaultPort.Some? then {defaultPort} else {})
  }

  predicate Spelt(a: Address, port: Option<nat>, s: string) {
    SameFold(Format(a.user, a.host, port), s)
  }

  predicate Tried(a: Address, defaultPort: Option<nat>, s: string) {
    exists p :: p in PortsTried(a.port, defaultPort) && Spelt(a, p, s)
  }

  lemma SpellingsAre(values: seq<string>, a: Address, defaultPort: Option<nat>, s: string)
    ensures Listed(PushSpellings(values, a, defaultPort), s) <==> Listed(values, s) || Tried(a, defaultPort, s)
  {
    var bare := Format(a.user, a.host, None);
    var other := Format(a.user, a.host, if a.port.Some? then a.port else defaultPort);
    var both := PortsTried(a.port, defaultPort);
    assert Spelt(a, None, s) <==> SameFold(bare, s);
    if a.port.Some? {
      PushLists(values, other, s);
      PushLists(PushUnique(values, other), bare, s);
      assert both == {a.port} + (if defaultPort == a.port then {None} else {});
      assert Spelt(a, a.port, s) <==> SameFold(other, s);
    } else {
      PushLists(values, bare, s);
      PushLists(PushUnique(values, bare), other, s);
      assert both == {None} + (if defaultPort.Some? then {defaultPort} else {});
      assert Spelt(a, defaultPort, s) <==> SameFold(other, s);
    }
  }

  /** The lookup tries the target as written and its account under each of those ports. */
  lemma CandidatesAre(host: HostParser, target: string, defaultPort: Option<nat>, s: string)
    ensures Listed(Candidates(host, target, defaultPort), s) <==>
      SameFold(target, s) || (Parse(host, target).Some? && Tried(Parse(host, target).value, defaultPort, s))
  {
    PushLists([], target, s);
    if Parse(host, target).Some? {
      SpellingsAre(PushUnique([], target), Parse(host, target).value, defaultPort, s);
    }
  }

  /** A row whose text is, up to case, the plain spelling of what it parses to, with a host that is
      no IPv6 literal. */
  predicate Canonical(host: HostParser, s: string) {
    match Parse(host, s)
    case None => false
    case Some(a) => ':' !in a.host && Lower(s) == Format(a.user, a.host, a.port)
  }

  lemma LongerHoldsSeparator(a: string, b: string, c: string, d: string, sep: char)
    requires a + [sep] + b == c + [sep] + d
    ensures |a| < |c| ==> sep in c
  {
    if |a| < |c| {
      assert c[|a|] == (c + [sep] + d)[|a|] == (a + [sep] + b)[|a|] == sep;
    }
  }

  lemma SplitUnique(a: string, b: string, c: string, d: string, sep: char)
    requires a + [sep] + b == c + [sep] + d && sep !in a && sep !in c
    ensures a == c && b == d
  {
    LongerHoldsSeparator(a, b, c, d, sep);
    LongerHoldsSeparator(c, d, a, b, sep);
    var s := a + [sep] + b;
    assert a == s[..|a|] && c == s[..|c|] && b == s[|a| + 1..] && d == s[|c| + 1..];
  }

  lemma PortTextShows(h: string, port: Option<nat>)
    requires ':' !in h
    ensures ':' in h + PortText(port) <==> port.Some?
  {
    if port.Some? {
      assert (h + PortText(port))[|h|] == ':';
    }
  }

  lemma AuthorityUnique(h: string, p: Option<nat>, k: string, q: Option<nat>)
    requires ':' !in h && ':' !in k && h + PortText(p) == k + PortText(q)
    ensures h == k && p == q
  {
    PortTextShows(h, p);
    PortTextShows(k, q);
    if p.Some? {
      assert h + PortText(p) == h + [':'] + Decimal(p.value) && k + PortText(q) == k + [':'] + Decimal(q.value);
      SplitUnique(h, Decimal(p.value), k, Decimal(q.value), ':');
      DecimalReadsBack(p.value);
      DecimalReadsBack(q.value);
    } else {
      assert h + PortText(p) == h && k + PortText(q) == k;
    }
  }

  lemma FormatParts(u: string, h: string, p: Option<nat>)
    requires ':' !in h
    ensures Format(u, h, p) == u + ['@'] + (h + PortText(p))
  {
    var tail := PortText(p);
    assert u + "@" + h + tail == u + ['@'] + (h + tail);
  }

  lemma FormatUnique(u: string, h: string, p: Option<nat>, v: string, k: string, q: Option<nat>)
    requires '@' !in u && '@' !in v && ':' !in h && ':' !in k
    requires Format(u, h, p) == Format(v, k, q)
    ensures u == v && h == k && p == q
  {
    FormatParts(u, h, p);
    FormatParts(v, k, q);
    SplitUnique(u, h + PortText(p), v, k + PortText(q), '@');
    AuthorityUnique(h, p, k, q);
  }

  lemma FormatFolds(u: string, h: string, p: Option<nat>)
    requires Lower(u) == u && Lower(h) == h
    ensures Lower(Format(u, h, p)) == Format(u, h, p)
  {
    if p.Some? {
      DecimalReadsBack(p.value);
      assert Lower(Decimal(p.value)) == Decimal(p.value);
    }
    forall i | 0 <= i < |u| ensures LowerChar(u[i]) == u[i] { assert Lower(u)[i] == u[i]; }
    forall i | 0 <= i < |h| ensures LowerChar(h[i]) == h[i] { assert Lower(h)[i] == h[i]; }
  }

  lemma ParsedIsFolded(host: HostParser, s: string)
    requires Parse(host, s).Some?
    ensures var a := Parse(host, s).value; Lower(a.user) == a.user && Lower(a.host) == a.host && '@' !in a.user
  {
    var r := SplitOnce(s, '@').value;
    LowerTwice(r.0);
    LowerTwice(host(r.1).value);
    InFolded(r.0, '@');
  }

  lemma SpellsIff(b: Address, p: Option<nat>, a: Address)
    requires Lower(b.user) == b.user && Lower(b.host) == b.host && '@' !in b.user && ':' !in b.host
    requires '@' !in a.user && ':' !in a.host
    ensures Lower(Format(b.user, b.host, p)) == Format(a.user, a.host, a.port) <==> a == Address.Address(b.user, b.host, p)
  {
    FormatFolds(b.user, b.host, p);
    if Format(b.user, b.host, p) == Format(a.user, a.host, a.port) {
      FormatUnique(b.user, b.host, p, a.user, a.host, a.port);
    }
  }

  /** The ports that are tried are those the matcher takes for the same. */
  lemma TriedIff(b: Address, defaultPort: Option<nat>, a: Address, row: string)
    requires Lower(b.user) == b.user && Lower(b.host) == b.host && '@' !in b.user && ':' !in b.host
    requires '@' !in a.user && ':' !in a.host && Lower(row) == Format(a.user, a.host, a.port)
    ensures Tried(b, defaultPort, row) <==>
      && a.user == b.user && a.host == b.host
      && (if defaultPort.Some? then a.port.UnwrapOr(defaultPort.value) == b.port.UnwrapOr(defaultPort.value)
          else a.port == b.port)
  {
    forall p ensures Spelt(b, p, row) <==> a == Address.Address(b.user, b.host, p) {
      SpellsIff(b, p, a);
    }
    assert Spelt(b, a.port, row) <==> a.user == b.user && a.host == b.host;
  }

  /** For canonical rows the candidate lookup and the matcher agree on every target whose host is no
      IPv6 literal. */
  lemma LookupAgreesWithMatch(host: HostParser, row: string, target: string, defaultPort: Option<nat>)
    requires CaseBlind(host) && Canonical(host, row)
    requires Parse(host, target).Some? ==> ':' !in Parse(host, target).value.host
    ensures Listed(Candidates(host, target, defaultPort), row) <==> Match(host, row, target, defaultPort)
  {
    CandidatesAre(host, target, defaultPort, row);
    if SameFold(target, row) {
      FoldedMatch(host, target, row, defaultPort);
      MatchIffSameAccount(host, row, target, defaultPort);
    }
    if Parse(host, target).Some? {
      ParsedIsFolded(host, row);
      ParsedIsFolded(host, target);
      TriedIff(Parse(host, target).value, defaultPort, Parse(host, row).value, row);
    }
  }

  // ---------------------------------------------------------------------------
  // Reading a port
  // ---------------------------------------------------------------------------

  /** From the right the split is at the last separator. */
  lemma RSplitsAt(a: string, b: string, sep: char)
    requires sep !in b
    ensures RSplitOnce(a + [sep] + b, sep) == Some((a, b))
  {
    var s := a + [sep] + b;
    assert s[|a|] == sep;
    var r := RSplitOnce(s, sep).value;
    LaterHoldsSeparator(a, b, r.0, r.1, sep);
    LaterHoldsSeparator(r.0, r.1, a, b, sep);
    assert r.0 == s[..|r.0|] && a == s[..|a|] && r.1 == s[|r.0| + 1..] && b == s[|a| + 1..];
  }

  lemma LaterHoldsSeparator(a: string, b: string, c: string, d: string, sep: char)
    requires a + [sep] + b == c + [sep] + d
    ensures |a| < |c| ==> sep in b
  {
    if |a| < |c| {
      assert b[|c| - |a| - 1] == (a + [sep] + b)[|c|] == (c + [sep] + d)[|c|] == sep;
    }
  }

  lemma PlainPort(h: string, digits: string)
    requires h != "" && ':' !in h && h[0] != '[' && !IsSpace(h[0]) && digits != "" && AllDigits(digits)
    ensures ExplicitPort(h + [':'] + digits) == ParsePort(digits)
  {
    var a := h + [':'] + digits;
    assert a[0] == h[0] && a[|a| - 1] == digits[|digits| - 1];
    TrimFixpoint(a);
    RSplitsAt(h, digits, ':');
  }

  lemma BracketPort(v: string, digits: string)
    requires ']' !in v && digits != "" && AllDigits(digits)
    ensures ExplicitPort("[" + (v + [']'] + (":" + digits))) == ParsePort(digits)
  {
    var rest := v + [']'] + (":" + digits);
    var a := "[" + rest;
    assert a[1..] == rest && a[|a| - 1] == digits[|digits| - 1];
    TrimFixpoint(a);
    SplitsAt(rest, v, ":" + digits, ']');
    assert (":" + digits)[1..] == digits;
  }

  /** A port written behind a host, or behind an IPv6 literal in its brackets, is read back if it fits
      16 bits, and is none if it does not. */
  lemma PortReadsBack(h: string, v: string, n: nat)
    requires h != "" && ':' !in h && h[0] != '[' && !IsSpace(h[0]) && ']' !in v
    ensures ExplicitPort(h + [':'] + Decimal(n)) == if n <= 65535 then Some(n) else None
    ensures ExplicitPort("[" + (v + [']'] + (":" + Decimal(n)))) == if n <= 65535 then Some(n) else None
  {
    DecimalReadsBack(n);
    assert Decimal(n) != "";
    PlainPort(h, Decimal(n));
    BracketPort(v, Decimal(n));
  }

  /** An authority with two colons and no brackets names no port, nor does one with none. */
  lemma NoPort(a: string, b: string, h: string)
    requires a != "" && a[0] != '[' && !IsSpace(a[0]) && (b == "" || !IsSpace(b[|b| - 1])) && ':' !in b
    requires ':' in a && ':' !in h && Trimmed(h)
    ensures ExplicitPort(a + [':'] + b) == None && ExplicitPort(h) == None
  {
    var s := a + [':'] + b;
    assert s[0] == a[0] && s[|s| - 1] == if b == "" then ':' else b[|b| - 1];
    TrimFixpoint(s);
    TrimFixpoint(h);
    RSplitsAt(a, b, ':');
    if h != "" && h[0] == '[' { NoPortInBrackets(h[1..]); }
  }

  lemma NoPortInBrackets(rest: string)
    requires ':' !in rest
    ensures PortAfterBracket(rest) == None
  {
    if SplitOnce(rest, ']').Some? {
      var r := SplitOnce(rest, ']').value;
      assert r.1 != "" ==> rest[|r.0| + 1] == r.1[0];
    }
  }

  // ---------------------------------------------------------------------------
  // Where lookup and matching part
  // ---------------------------------------------------------------------------

  /** A host with a colon is an IPv6 literal, which the URL parser gives in brackets. */
  predicate HostShape(h: string) {
    ':' in h ==> |h| >= 2 && h[0] == '[' && h[1] != '[' && h[|h| - 1] == ']'
  }

  function Spelling(a: Address): string {
    a.user + "@" + a.host + PortText(a.port)
  }

  /** An address whose text is, up to case, the plain spelling of what it parses to. */
  predicate Plain(host: HostParser, s: string) {
    match Parse(host, s)
    case None => false
    case Some(a) => HostShape(a.host) && Lower(s) == Spelling(a)
  }

  lemma SpellingParts(u: string, authority: string, tail: string)
    ensures u + "@" + authority + tail == u + ['@'] + (authority + tail)
  {
    assert u + "@" + authority + tail == u + "@" + (authority + tail);
  }

  lemma FirstColonIsEarly(h: string, digits: string, k: string, tail: string)
    requires ':' !in h && ':' in k && k[|k| - 1] == ']' && AllDigits(digits)
    ensures h + [':'] + digits != k + tail
  {
    var a, b, n := h + [':'] + digits, k + tail, |k| - 1;
    var i :| 0 <= i < |k| && k[i] == ':';
    assert b[i] == ':' && b[n] == ']';
    if i < |h| {
      assert a[i] == h[i];
    } else if n < |a| {
      assert a[n] == digits[n - |h| - 1];
    }
  }

  /** A colon in front of a closing bracket is no port separator. */
  lemma ColonHostsDiffer(h: string, p: Option<nat>, k: string, q: Option<nat>)
    requires ':' !in h && ':' in k && k[|k| - 1] == ']'
    ensures h + PortText(p) != k + PortText(q)
  {
    if p.Some? {
      DecimalReadsBack(p.value);
      assert h + PortText(p) == h + [':'] + Decimal(p.value);
      FirstColonIsEarly(h, Decimal(p.value), k, PortText(q));
    } else {
      var i :| 0 <= i < |k| && k[i] == ':';
      assert h + PortText(p) == h && (k + PortText(q))[i] == ':';
    }
  }

  /** Of an IPv6 target the candidates, brackets doubled, spell no plain row. */
  lemma DoubledSpellsNothing(b: Address, p: Option<nat>, a: Address)
    requires '@' !in b.user && '@' !in a.user && ':' in b.host && HostShape(b.host) && HostShape(a.host)
    ensures Format(b.user, b.host, p) != Spelling(a)
  {
    var doubled := "[" + b.host + "]";
    SpellingParts(b.user, doubled, PortText(p));
    SpellingParts(a.user, a.host, PortText(a.port));
    if Format(b.user, b.host, p) == Spelling(a) {
      SplitUnique(b.user, doubled + PortText(p), a.user, a.host + PortText(a.port), '@');
      DoubledHost(b.host, p, a.host, a.port);
    }
  }

  lemma DoubledHost(h: string, p: Option<nat>, k: string, q: Option<nat>)
    requires ':' in h && HostShape(h) && HostShape(k)
    ensures "[" + h + "]" + PortText(p) != k + PortText(q)
  {
    var doubled := "[" + h + "]";
    if ':' in k {
      assert (doubled + PortText(p))[1] == '[' && (k + PortText(q))[1] == k[1];
    } else {
      var i :| 0 <= i < |h| && h[i] == ':';
      assert doubled[i + 1] == ':';
      ColonHostsDiffer(k, q, doubled, p);
    }
  }

  /** And of any other target the candidates spell no plain row with an IPv6 host. */
  lemma BareSpellsNoLiteral(b: Address, p: Option<nat>, a: Address)
    requires '@' !in b.user && '@' !in a.user && ':' !in b.host && ':' in a.host && HostShape(a.host)
    ensures Format(b.user, b.host, p) != Spelling(a)
  {
    SpellingParts(b.user, b.host, PortText(p));
    SpellingParts(a.user, a.host, PortText(a.port));
    if Format(b.user, b.host, p) == Spelling(a) {
      SplitUnique(b.user, b.host + PortText(p), a.user, a.host + PortText(a.port), '@');
      ColonHostsDiffer(b.host, p, a.host, a.port);
    }
  }

  lemma FormatOfParsedFolds(host: HostParser, s: string, p: Option<nat>)
    requires Parse(host, s).Some?
    ensures var b := Parse(host, s).value; Lower(Format(b.user, b.host, p)) == Format(b.user, b.host, p)
  {
    ParsedIsFolded(host, s);
    FormatFolds(Parse(host, s).value.user, Parse(host, s).value.host, p);
  }

  /** The lookup of an IPv6 target finds a plain row exactly when it is the target as written. */
  lemma Ipv6LookupIsLiteral(host: HostParser, row: string, target: string, defaultPort: Option<nat>)
    requires Plain(host, row) && Parse(host, target).Some?
    requires ':' in Parse(host, target).value.host && HostShape(Parse(host, target).value.host)
    ensures Listed(Candidates(host, target, defaultPort), row) <==> SameFold(target, row)
  {
    CandidatesAre(host, target, defaultPort, row);
    var a, b := Parse(host, row).value, Parse(host, target).value;
    ParsedIsFolded(host, row);
    ParsedIsFolded(host, target);
    forall p ensures !Spelt(b, p, row) {
      FormatOfParsedFolds(host, target, p);
      DoubledSpellsNothing(b, p, a);
    }
  }

  /** The lookup of any other target agrees with the matcher on every plain row. */
  lemma BareLookupAgrees(host: HostParser, row: string, target: string, defaultPort: Option<nat>)
    requires CaseBlind(host) && Plain(host, row)
    requires Parse(host, target).Some? ==> ':' !in Parse(host, target).value.host
    ensures Listed(Candidates(host, target, defaultPort), row) <==> Match(host, row, target, defaultPort)
  {
    var a := Parse(host, row).value;
    if ':' !in a.host {
      LookupAgreesWithMatch(host, row, target, defaultPort);
    } else {
      CandidatesAre(host, target, defaultPort, row);
      if Parse(host, target).None? {
        MatchUnparsed(host, row, target, defaultPort);
      } else {
        LiteralRowUnspelt(host, row, target, defaultPort);
        MatchNeedsHost(host, row, target, defaultPort);
        if SameFold(target, row) {
          ParseFolds(host, target);
          ParseFolds(host, row);
        }
      }
    }
  }

  lemma MatchUnparsed(host: HostParser, row: string, target: string, defaultPort: Option<nat>)
    requires Parse(host, target).None?
    ensures Match(host, row, target, defaultPort) <==> SameFold(row, target)
  {
  }

  lemma MatchNeedsHost(host: HostParser, row: string, target: string, defaultPort: Option<nat>)
    requires Parse(host, target).Some? && Parse(host, row).Some?
    ensures var (a, b) := (Parse(host, row).value, Parse(host, target).value);
      Match(host, row, target, defaultPort) <==>
        && a.user == b.user && a.host == b.host
        && (if defaultPort.Some? then a.port.UnwrapOr(defaultPort.value) == b.port.UnwrapOr(defaultPort.value)
            else a.port == b.port)
  {
  }

  lemma LiteralRowUnspelt(host: HostParser, row: string, target: string, defaultPort: Option<nat>)
    requires Plain(host, row) && ':' in Parse(host, row).value.host
    requires Parse(host, target).Some? && ':' !in Parse(host, target).value.host
    ensures !Tried(Parse(host, target).value, defaultPort, row)
  {
    var a, b := Parse(host, row).value, Parse(host, target).value;
    ParsedIsFolded(host, row);
    ParsedIsFolded(host, target);
    forall p ensures !Spelt(b, p, row) {
      FormatOfParsedFolds(host, target, p);
      BareSpellsNoLiteral(b, p, a);
    }
  }

  /** Two matching plain spellings are one text exactly when both name the port or neither does. */
  lemma SameTextIff(host: HostParser, row: string, target: string, defaultPort: Option<nat>)
    requires Plain(host, row) && Plain(host, target) && Match(host, row, target, defaultPort)
    ensures SameFold(target, row) <==> Parse(host, row).value.port == Parse(host, target).value.port
  {
    var a, b := Parse(host, row).value, Parse(host, target).value;
    MatchNeedsHost(host, row, target, defaultPort);
    var front := a.user + "@" + a.host;
    PortTextUnique(front, a.port, b.port);
  }

  lemma PortTextUnique(front: string, p: Option<nat>, q: Option<nat>)
    ensures front + PortText(p) == front + PortText(q) <==> p == q
  {
    if front + PortText(p) == front + PortText(q) {
      assert (front + PortText(p))[|front|..] == PortText(p) && (front + PortText(q))[|front|..] == PortText(q);
      assert PortText(p) == "" + PortText(p) && PortText(q) == "" + PortText(q);
      AuthorityUnique("", p, "", q);
    }
  }

  /** For plain rows and targets of any host, lookup and matcher agree exactly when the target's host
      is no IPv6 literal, or a match implies that both name the port or neither does. */
  lemma LookupAgreesIff(host: HostParser, row: string, target: string, defaultPort: Option<nat>)
    requires CaseBlind(host) && Plain(host, row) && Plain(host, target)
    ensures (Listed(Candidates(host, target, defaultPort), row) <==> Match(host, row, target, defaultPort)) <==>
      || ':' !in Parse(host, target).value.host
      || (Match(host, row, target, defaultPort) ==> Parse(host, row).value.port == Parse(host, target).value.port)
  {
    if ':' in Parse(host, target).value.host {
      Ipv6LookupIsLiteral(host, row, target, defaultPort);
      FoldedMatches(host, target, row, defaultPort);
      if Match(host, row, target, defaultPort) {
        SameTextIff(host, row, target, defaultPort);
      }
    } else {
      BareLookupAgrees(host, row, target, defaultPort);
    }
  }

  lemma FoldedMatches(host: HostParser, target: string, row: string, defaultPort: Option<nat>)
    requires CaseBlind(host)
    ensures SameFold(target, row) ==> Match(host, row, target, defaultPort)
  {
    if SameFold(target, row) {
      FoldedMatch(host, target, row, defaultPort);
      MatchIffSameAccount(host, row, target, defaultPort);
    }
  }

  const BRACKETED := "[::1]"
  const WITH_PORT := "[::1]:443"

  lemma PortIsRead()
    ensures ParsePort("443") == Some(443)
  {
    assert "443"[..2] == "44" && "44"[..1] == "4" && "4"[..0] == "";
    assert ParseDecimal("4") == 4;
    assert ParseDecimal("44") == 44;
    assert ParseDecimal("443") == 443;
  }

  lemma BracketedPorts()
    ensures PortAfterBracket(BRACKETED[1..]) == None && PortAfterBracket(WITH_PORT[1..]) == Some(443)
  {
    BracketSplits();
    PortIsRead();
    assert ":443"[1..] == "443";
  }

  lemma Untrimmed(a: string)
    requires a != "" && a[0] == '[' && !IsSpace(a[|a| - 1])
    ensures ExplicitPort(a) == PortAfterBracket(a[1..])
  {
    assert Trimmed(a);
    TrimFixpoint(a);
  }

  lemma BracketSplits()
    ensures SplitOnce(BRACKETED[1..], ']') == Some(("::1", ""))
    ensures SplitOnce(WITH_PORT[1..], ']') == Some(("::1", ":443"))
  {
    SplitsAt(BRACKETED[1..], "::1", "", ']');
    SplitsAt(WITH_PORT[1..], "::1", ":443", ']');
  }

  lemma SplitsAt(s: string, a: string, b: string, sep: char)
    requires s == a + [sep] + b && sep !in a
    ensures SplitOnce(s, sep) == Some((a, b))
  {
    assert s[|a|] == sep;
    var r := SplitOnce(s, sep).value;
    SplitUnique(r.0, r.1, a, b, sep);
  }

  lemma ParsesTo(host: HostParser, authority: string, port: Option<nat>)
    requires host(authority) == Some(BRACKETED) && ExplicitPort(authority) == port
    ensures Parse(host, "a@" + authority) == Some(Address.Address("a", BRACKETED, port))
  {
    assert "a@" + authority == "a" + ['@'] + authority;
    SplitsAt("a@" + authority, "a", authority, '@');
    assert Lower("a") == "a" && Lower(BRACKETED) == BRACKETED;
  }

  lemma BracketedParse(host: HostParser)
    requires host(BRACKETED) == Some(BRACKETED) && host(WITH_PORT) == Some(BRACKETED)
    ensures Parse(host, "a@" + BRACKETED) == Some(Address.Address("a", BRACKETED, None))
    ensures Parse(host, "a@" + WITH_PORT) == Some(Address.Address("a", BRACKETED, Some(443)))
  {
    BracketedPorts();
    Untrimmed(BRACKETED);
    Untrimmed(WITH_PORT);
    ParsesTo(host, BRACKETED, None);
    ParsesTo(host, WITH_PORT, Some(443));
  }

  /** The URL parser keeps the brackets of an IPv6 host, so the candidates double them: the matcher
      takes the two spellings for one account, and the lookup misses the row. */
  lemma Ipv6LookupMisses(host: HostParser)
    requires host(BRACKETED) == Some(BRACKETED) && host(WITH_PORT) == Some(BRACKETED)
    ensures Match(host, "a@" + WITH_PORT, "a@" + BRACKETED, Some(443))
    ensures !Listed(Candidates(host, "a@" + BRACKETED, Some(443)), "a@" + WITH_PORT)
  {
    BracketedParse(host);
    CandidatesAre(host, "a@" + BRACKETED, Some(443), "a@" + WITH_PORT);
    forall p ensures !SameFold(Format("a", BRACKETED, p), "a@" + WITH_PORT) {
      BracketsDouble(p);
    }
    assert |Lower("a@" + BRACKETED)| != |Lower("a@" + WITH_PORT)|;
  }

  lemma BracketsDouble(p: Option<nat>)
    ensures !SameFold(Format("a", BRACKETED, p), "a@" + WITH_PORT)
  {
    assert BRACKETED[1] == ':';
    assert Format("a", BRACKETED, p)[3] == '[';
    assert Lower(Format("a", BRACKETED, p))[3] == '[' && Lower("a@" + WITH_PORT)[3] == ':';
  }
}
