/** The table of accounts the server follows. Rows are keyed by the address text, which is UNIQUE;
    the operations treat the table as a set of accounts. */
module Follows {
  import opened Wrappers
  import opened Text
  import Addresses

  datatype Follow = Follow(id: string, uri: string, at: int)

  type Table = map<string, Follow>

  type Account = Addresses.Account

  /** How addresses are compared, which account each stands for, and how one is looked up. */
  datatype Rules = Rules(
    matches: (string, string) -> bool, accountOf: string -> Account, candidates: string -> seq<string>)

  /** The comparison of the source, for a URL parser and a default port. */
  function RulesFor(host: Addresses.HostParser, port: Option<nat>): Rules {
    Rules((row, target) => Addresses.Match(host, row, target, port),
          address => Addresses.AccountOf(host, address, port),
          target => Addresses.Candidates(host, target, port))
  }

  ghost predicate Sound(x: Rules) {
    forall a, b :: x.matches(a, b) <==> x.accountOf(a) == x.accountOf(b)
  }

  lemma RulesAreSound(host: Addresses.HostParser, port: Option<nat>)
    requires Addresses.CaseBlind(host)
    ensures Sound(RulesFor(host, port))
  {
    forall a, b ensures RulesFor(host, port).matches(a, b) <==> RulesFor(host, port).accountOf(a) == RulesFor(host, port).accountOf(b) {
      Addresses.MatchIffSameAccount(host, a, b, port);
    }
  }

  ghost function Accounts(x: Rules, rows: Table): set<Account> {
    set a | a in rows :: x.accountOf(a)
  }

  /** No account is followed under two spellings. */
  ghost predicate Distinct(x: Rules, rows: Table) {
    forall a, b :: a in rows && b in rows && a != b ==> x.accountOf(a) != x.accountOf(b)
  }

  predicate IdTaken(rows: Table, id: string) {
    exists a :: a in rows && rows[a].id == id
  }

  datatype Op = Insert(address: string, follow: Follow) | Delete(address: string)

  predicate Inserts(x: Rules, rows: Table, address: string, id: string) {
    (forall a :: a in rows ==> !x.matches(a, address)) && address !in rows && !IdTaken(rows, id)
  }

  function Do(x: Rules, rows: Table, op: Op): Table {
    match op
    case Insert(address, follow) => if Inserts(x, rows, address, follow.id) then rows[address := follow] else rows
    case Delete(address) => map a | a in rows && !x.matches(a, address) :: rows[a]
  }

  function Run(x: Rules, rows: Table, ops: seq<Op>): Table
    decreases |ops|
  {
    if ops == [] then rows else Run(x, Do(x, rows, ops[0]), ops[1..])
  }

  // ---------------------------------------------------------------------------
  // The table is a set of accounts
  // ---------------------------------------------------------------------------

  /** The same operation on a set of accounts. */
  ghost function DoSet(x: Rules, accounts: set<Account>, op: Op): set<Account> {
    match op
    case Insert(address, _) => accounts + {x.accountOf(address)}
    case Delete(address) => accounts - {x.accountOf(address)}
  }

  ghost function RunSet(x: Rules, accounts: set<Account>, ops: seq<Op>): set<Account>
    decreases |ops|
  {
    if ops == [] then accounts else RunSet(x, DoSet(x, accounts, ops[0]), ops[1..])
  }

  /** An insert with an unused id reports success exactly when no spelling of the account was there;
      it adds that account and nothing else. */
  lemma InsertAddsTheAccount(x: Rules, rows: Table, op: Op)
    requires Sound(x) && Distinct(x, rows) && op.Insert? && !IdTaken(rows, op.follow.id)
    ensures Inserts(x, rows, op.address, op.follow.id) <==> x.accountOf(op.address) !in Accounts(x, rows)
    ensures Accounts(x, Do(x, rows, op)) == DoSet(x, Accounts(x, rows), op)
    ensures Distinct(x, Do(x, rows, op))
  {
    var added := Do(x, rows, op);
    if Inserts(x, rows, op.address, op.follow.id) {
      assert forall a :: a in added <==> a in rows || a == op.address;
    }
  }

  /** A delete removes the account under whatever spelling, and nothing else. */
  lemma DeleteRemovesTheAccount(x: Rules, rows: Table, op: Op)
    requires Sound(x) && Distinct(x, rows) && op.Delete?
    ensures Accounts(x, Do(x, rows, op)) == DoSet(x, Accounts(x, rows), op)
    ensures Distinct(x, Do(x, rows, op))
  {
    assert forall a :: a in Do(x, rows, op) <==> a in rows && x.accountOf(a) != x.accountOf(op.address);
  }

  /** In a table without two spellings of an account that is one row at most. */
  lemma DeleteRemovesOneRow(x: Rules, rows: Table, op: Op)
    requires Sound(x) && Distinct(x, rows) && op.Delete?
    ensures |rows| == |Do(x, rows, op)| + (if x.accountOf(op.address) in Accounts(x, rows) then 1 else 0)
  {
    var kept := Do(x, rows, op);
    if x.accountOf(op.address) in Accounts(x, rows) {
      var a :| a in rows && x.accountOf(a) == x.accountOf(op.address);
      assert kept.Keys == rows.Keys - {a};
    } else {
      assert kept.Keys == rows.Keys;
    }
    assert |rows.Keys| == |rows| && |kept.Keys| == |kept|;
  }

  /** Every insert brings an id of its own. */
  ghost predicate FreshIds(rows: Table, ops: seq<Op>) {
    && (forall i :: 0 <= i < |ops| && ops[i].Insert? ==> !IdTaken(rows, ops[i].follow.id))
    && (forall i, j :: 0 <= i < j < |ops| && ops[i].Insert? && ops[j].Insert? ==> ops[i].follow.id != ops[j].follow.id)
  }

  lemma IdsStayFresh(x: Rules, rows: Table, ops: seq<Op>)
    requires ops != [] && FreshIds(rows, ops)
    ensures FreshIds(Do(x, rows, ops[0]), ops[1..])
  {
    var after := Do(x, rows, ops[0]);
    forall i | 0 <= i < |ops[1..]| && ops[1..][i].Insert? ensures !IdTaken(after, ops[1..][i].follow.id) {
      assert ops[1..][i] == ops[i + 1];
      assert forall a :: a in after ==> (a in rows && after[a] == rows[a]) || (ops[0].Insert? && after[a] == ops[0].follow);
    }
  }

  /** Over every run the table refines a plain set of accounts, with one row for each of them. */
  lemma {:induction false} RunRefinesSet(x: Rules, rows: Table, ops: seq<Op>)
    requires Sound(x) && Distinct(x, rows) && FreshIds(rows, ops)
    ensures Accounts(x, Run(x, rows, ops)) == RunSet(x, Accounts(x, rows), ops)
    ensures Distinct(x, Run(x, rows, ops))
    decreases |ops|
  {
    if ops != [] {
      if ops[0].Insert? {
        InsertAddsTheAccount(x, rows, ops[0]);
      } else {
        DeleteRemovesTheAccount(x, rows, ops[0]);
      }
      IdsStayFresh(x, rows, ops);
      RunRefinesSet(x, Do(x, rows, ops[0]), ops[1..]);
    }
  }

  // ---------------------------------------------------------------------------
  // The lookup by candidate spellings
  // ---------------------------------------------------------------------------

  predicate Found(x: Rules, target: string, row: string) {
    Addresses.Listed(x.candidates(target), row)
  }

  predicate Finds(x: Rules, rows: Table, target: string) {
    exists a :: a in rows && Found(x, target, a)
  }

  predicate Removes(x: Rules, rows: Table, target: string) {
    exists a :: a in rows && x.matches(a, target)
  }

  lemma RemovesIffChanges(x: Rules, rows: Table, target: string)
    ensures Removes(x, rows, target) <==> Do(x, rows, Delete(target)) != rows
  {
    var kept := Do(x, rows, Delete(target));
    if Removes(x, rows, target) {
      var a :| a in rows && x.matches(a, target);
      assert a !in kept;
    } else {
      assert kept == rows;
    }
  }

  /** Among plainly spelt rows, of any host, the lookup of a target whose host is no IPv6 literal finds
      a row exactly when a delete of the same target would remove one. */
  lemma LookupFindsWhatDeleteRemoves(host: Addresses.HostParser, port: Option<nat>, rows: Table, target: string)
    requires Addresses.CaseBlind(host) && forall a :: a in rows ==> Addresses.Plain(host, a)
    requires Addresses.Parse(host, target).Some? ==> ':' !in Addresses.Parse(host, target).value.host
    ensures var x := RulesFor(host, port);
      && (Finds(x, rows, target) <==> Removes(x, rows, target))
      && (Finds(x, rows, target) <==> Do(x, rows, Delete(target)) != rows)
  {
    var x := RulesFor(host, port);
    forall a | a in rows ensures Found(x, target, a) <==> x.matches(a, target) {
      Addresses.BareLookupAgrees(host, a, target, port);
    }
    RemovesIffChanges(x, rows, target);
  }

  /** The port an address names itself. */
  function NamedPort(host: Addresses.HostParser, s: string): Option<nat> {
    match Addresses.Parse(host, s)
    case None => None
    case Some(a) => a.port
  }

  /** A row that a delete of the target would remove and that names its port as the target does. */
  predicate SamePortRow(host: Addresses.HostParser, port: Option<nat>, rows: Table, target: string) {
    exists a :: a in rows && RulesFor(host, port).matches(a, target) && NamedPort(host, a) == NamedPort(host, target)
  }

  lemma LiteralFound(host: Addresses.HostParser, port: Option<nat>, row: string, target: string)
    requires Addresses.CaseBlind(host) && Addresses.Plain(host, row) && Addresses.Plain(host, target)
    requires ':' in Addresses.Parse(host, target).value.host
    ensures var x := RulesFor(host, port);
      Found(x, target, row) <==> x.matches(row, target) && NamedPort(host, row) == NamedPort(host, target)
  {
    Addresses.Ipv6LookupIsLiteral(host, row, target, port);
    Addresses.FoldedMatches(host, target, row, port);
    if RulesFor(host, port).matches(row, target) {
      Addresses.SameTextIff(host, row, target, port);
    }
  }

  /** For every plainly spelt target, IPv6 or not: what the lookup finds a delete would remove, and the
      two agree exactly when the host is no IPv6 literal, or some row to be removed names its port as
      the target does, or there is none to remove. */
  lemma LookupAgreesWithDeleteIff(host: Addresses.HostParser, port: Option<nat>, rows: Table, target: string)
    requires Addresses.CaseBlind(host) && Addresses.Plain(host, target)
    requires forall a :: a in rows ==> Addresses.Plain(host, a)
    ensures var x := RulesFor(host, port);
      && (Finds(x, rows, target) ==> Removes(x, rows, target))
      && ((Finds(x, rows, target) <==> Removes(x, rows, target)) <==>
            || ':' !in Addresses.Parse(host, target).value.host
            || SamePortRow(host, port, rows, target)
            || !Removes(x, rows, target))
  {
    var x := RulesFor(host, port);
    if ':' in Addresses.Parse(host, target).value.host {
      forall a | a in rows
        ensures Found(x, target, a) <==> x.matches(a, target) && NamedPort(host, a) == NamedPort(host, target)
      {
        LiteralFound(host, port, a, target);
      }
      FindsIff(host, port, rows, target);
    } else {
      LookupFindsWhatDeleteRemoves(host, port, rows, target);
    }
  }

  lemma FindsIff(host: Addresses.HostParser, port: Option<nat>, rows: Table, target: string)
    requires var x := RulesFor(host, port);
      forall a :: a in rows ==>
        (Found(x, target, a) <==> x.matches(a, target) && NamedPort(host, a) == NamedPort(host, target))
    ensures Finds(RulesFor(host, port), rows, target) <==> SamePortRow(host, port, rows, target)
    ensures SamePortRow(host, port, rows, target) ==> Removes(RulesFor(host, port), rows, target)
  {
  }

  /** With an IPv6 host the delete removes a row that the lookup cannot find. */
  lemma Ipv6RowIsRemovedUnfound(host: Addresses.HostParser, follow: Follow)
    requires host(Addresses.BRACKETED) == Some(Addresses.BRACKETED) && host(Addresses.WITH_PORT) == Some(Addresses.BRACKETED)
    ensures var x := RulesFor(host, Some(443));
      var rows := map["a@" + Addresses.WITH_PORT := follow];
      !Finds(x, rows, "a@" + Addresses.BRACKETED) && Removes(x, rows, "a@" + Addresses.BRACKETED)
  {
    Addresses.Ipv6LookupMisses(host);
    var x := RulesFor(host, Some(443));
    var rows := map["a@" + Addresses.WITH_PORT := follow];
    assert "a@" + Addresses.WITH_PORT in rows && x.matches("a@" + Addresses.WITH_PORT, "a@" + Addresses.BRACKETED);
  }

  // ---------------------------------------------------------------------------
  // The methods
  // ---------------------------------------------------------------------------

  class Store {
    var rows: Table
    const host: Addresses.HostParser

    constructor (host: Addresses.HostParser)
      ensures rows == map[] && this.host == host
    {
      rows := map[];
      this.host := host;
    }

    /** `insert_follow_if_absent`: the scan and the insert are one IMMEDIATE transaction. */
    method InsertIfAbsent(address: string, follow: Follow, port: Option<nat>) returns (inserted: bool)
      modifies this
      ensures inserted == Inserts(RulesFor(host, port), old(rows), address, follow.id)
      ensures rows == Do(RulesFor(host, port), old(rows), Insert(address, follow))
    {
      var x := RulesFor(host, port);
      var todo := rows.Keys;
      while todo != {}
        invariant todo <= rows.Keys && rows == old(rows)
        invariant forall a :: a in rows && a !in todo ==> !x.matches(a, address)
        decreases |todo|
      {
        var a :| a in todo;
        if x.matches(a, address) {
          return false;
        }
        todo := todo - {a};
      }
      inserted := address !in rows && !IdTaken(rows, follow.id);
      if inserted {
        rows := rows[address := follow];
      }
    }

    /** `delete_follow`: one case-insensitive DELETE for each matching address. */
    method Delete(target: string, port: Option<nat>)
      requires Addresses.CaseBlind(host)
      modifies this
      ensures rows == Do(RulesFor(host, port), old(rows), Op.Delete(target))
    {
      var x := RulesFor(host, port);
      var matches := set a | a in rows && x.matches(a, target);
      forall a, d | a in rows && d in matches && SameFold(a, d) ensures a in matches {
        FoldsMatch(host, a, d, target, port);
      }
      DeleteEach(matches);
    }

    method DeleteEach(matches: set<string>)
      requires matches <= rows.Keys && forall a, d :: a in rows && d in matches && SameFold(a, d) ==> a in matches
      modifies this
      ensures rows == map a | a in old(rows) && a !in matches :: old(rows)[a]
    {
      ghost var was := rows;
      var todo := matches;
      while todo != {}
        invariant todo <= matches
        invariant forall a :: a in rows ==> a in was && rows[a] == was[a]
        invariant forall a :: a in was && a !in matches ==> a in rows
        invariant forall a :: a in rows && a in matches ==> a in todo
        decreases |todo|
      {
        var existing :| existing in todo;
        rows := map a | a in rows && !SameFold(a, existing) :: rows[a];
        todo := todo - {existing};
      }
    }

    /** `get_follow_uri`: the newest row under any candidate spelling. */
    method GetFollowUri(target: string, port: Option<nat>) returns (uri: Option<string>)
      ensures uri.Some? <==> Finds(RulesFor(host, port), rows, target)
      ensures uri.Some? ==> exists a ::
        && a in rows && Found(RulesFor(host, port), target, a) && rows[a].uri == uri.value
        && forall b :: b in rows && Found(RulesFor(host, port), target, b) ==> rows[b].at <= rows[a].at
    {
      var x := RulesFor(host, port);
      var todo := rows.Keys;
      var best: Option<string> := None;
      while todo != {}
        invariant todo <= rows.Keys
        invariant best.Some? ==> best.value in rows && Found(x, target, best.value)
        invariant forall b :: b in rows && b !in todo && Found(x, target, b) ==> best.Some? && rows[b].at <= rows[best.value].at
        decreases |todo|
      {
        var a :| a in todo;
        if Found(x, target, a) && (best.None? || rows[best.value].at < rows[a].at) {
          best := Some(a);
        }
        todo := todo - {a};
      }
      uri := if best.Some? then Some(rows[best.value].uri) else None;
    }
  }

  lemma FoldsMatch(host: Addresses.HostParser, a: string, existing: string, target: string, port: Option<nat>)
    requires Addresses.CaseBlind(host) && SameFold(a, existing) && RulesFor(host, port).matches(existing, target)
    ensures RulesFor(host, port).matches(a, target)
  {
    RulesAreSound(host, port);
    Addresses.FoldedMatch(host, a, existing, port);
    assert RulesFor(host, port).accountOf(a) == RulesFor(host, port).accountOf(existing);
  }
}
