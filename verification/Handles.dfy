/** The handles that stand for contracts in a chat: minted by counting, or asked for by name; one per
    contract, different from each other, and for good. */
module Handles {
  import opened Options
  import opened Text

  datatype Row = Row(org: string, session: string, contract: string, handle: string, createdBy: Option<string>)

  /** The chat a handle belongs to. */
  datatype Chat = Chat(org: string, session: string)

  predicate InChat(r: Row, chat: Chat) {
    r.org == chat.org && r.session == chat.session
  }

  /** The chat's rows, in the order they were added. */
  function RowsOf(rows: seq<Row>, chat: Chat): (s: seq<Row>)
    ensures |s| <= |rows|
  {
    if rows == [] then []
    else
      var n := |rows| - 1;
      RowsOf(rows[..n], chat) + (if InChat(rows[n], chat) then [rows[n]] else [])
  }

  /** The first row of a list for a contract. */
  function Find(s: seq<Row>, contract: string): (r: Option<Row>)
    ensures r.Some? ==> r.value in s && r.value.contract == contract
  {
    if s == [] then None
    else
      var n := |s| - 1;
      var earlier := Find(s[..n], contract);
      if earlier.None? && s[n].contract == contract then Some(s[n]) else earlier
  }

  /** The contract a handle stands for, as the tools look it up. */
  function Resolve(s: seq<Row>, handle: string): Option<string> {
    if s == [] then None
    else
      var n := |s| - 1;
      var earlier := Resolve(s[..n], handle);
      if earlier.None? && s[n].handle == handle then Some(s[n].contract) else earlier
  }

  function Contracts(s: seq<Row>): set<string> {
    if s == [] then {} else Contracts(s[..|s| - 1]) + {s[|s| - 1].contract}
  }

  function HandleName(n: nat): string {
    "contract-" + Decimal(n)
  }

  /** The contract's handle in the chat, and the table with a row for it. A new row gets the name asked
      for, or the next number; when another row of the chat has that name, it is refused. */
  function HandleFor(rows: seq<Row>, chat: Chat, contract: string, asked: Option<string>, user: Option<string>)
    : (Option<string>, seq<Row>)
  {
    var s := RowsOf(rows, chat);
    var existing := Find(s, contract);
    if existing.Some? then (Some(existing.value.handle), rows)
    else
      var handle := if asked.Some? then asked.value else HandleName(|s|);
      if Resolve(s, handle).Some? then (None, rows)
      else (Some(handle), rows + [Row(chat.org, chat.session, contract, handle, user)])
  }

  /** What the table's unique constraints guarantee of a chat: one row per contract, and per handle. */
  predicate Unique(s: seq<Row>) {
    s == []
    || (var n := |s| - 1;
        Unique(s[..n]) && Find(s[..n], s[n].contract).None? && Resolve(s[..n], s[n].handle).None?)
  }

  // ---- what both writers keep ----

  lemma {:induction false} FindIff(s: seq<Row>, contract: string)
    ensures Find(s, contract).Some? <==> contract in Contracts(s)
  {
    if s != [] {
      FindIff(s[..|s| - 1], contract);
    }
  }

  lemma {:induction false} RowsOfNext(rows: seq<Row>, r: Row, chat: Chat)
    ensures RowsOf(rows + [r], chat) == RowsOf(rows, chat) + (if InChat(r, chat) then [r] else [])
  {
    assert (rows + [r])[..|rows|] == rows;
  }

  lemma {:induction false} RowsOfAppend(a: seq<Row>, b: seq<Row>, chat: Chat)
    ensures RowsOf(a + b, chat) == RowsOf(a, chat) + RowsOf(b, chat)
  {
    if b == [] {
      assert a + b == a;
    } else {
      var n := |b| - 1;
      assert (a + b)[..|a| + n] == a + b[..n];
      RowsOfAppend(a, b[..n], chat);
    }
  }

  lemma {:induction false} UniqueNext(s: seq<Row>, r: Row)
    requires Unique(s) && Find(s, r.contract).None? && Resolve(s, r.handle).None?
    ensures Unique(s + [r]) && Contracts(s + [r]) == Contracts(s) + {r.contract}
  {
    assert (s + [r])[..|s|] == s;
  }

  /** Whoever writes: every chat stays unique, only the contract asked for is added, only to the chat it
      was asked for, only when it was not refused, and no existing row changes. */
  lemma {:induction false} HandleForKeeps(rows: seq<Row>, chat: Chat, contract: string, asked: Option<string>,
      user: Option<string>, other: Chat)
    requires Unique(RowsOf(rows, other))
    ensures var (handle, after) := HandleFor(rows, chat, contract, asked, user);
            && rows <= after && (handle == None ==> after == rows)
            && Unique(RowsOf(after, other))
            && Contracts(RowsOf(after, other))
               == Contracts(RowsOf(rows, other)) + (if other == chat && handle.Some? then {contract} else {})
  {
    var s := RowsOf(rows, other);
    var (handle, after) := HandleFor(rows, chat, contract, asked, user);
    FindIff(s, contract);
    if after != rows {
      var row := after[|rows|];
      RowsOfNext(rows, row, other);
      if other == chat {
        UniqueNext(s, row);
      } else {
        assert s + [] == s;
      }
    }
  }

  /** In a unique chat every row's handle resolves to its contract. */
  lemma {:induction false} ResolveAt(s: seq<Row>, i: nat)
    requires Unique(s) && i < |s|
    ensures Resolve(s, s[i].handle) == Some(s[i].contract)
  {
    if i < |s| - 1 {
      ResolveAt(s[..|s| - 1], i);
    }
  }

  /** A handle that was handed out is that of one of the chat's rows for the contract. */
  lemma {:induction false} HandleHasRow(rows: seq<Row>, chat: Chat, contract: string, asked: Option<string>,
      user: Option<string>) returns (i: nat)
    requires HandleFor(rows, chat, contract, asked, user).0.Some?
    ensures var (handle, after) := HandleFor(rows, chat, contract, asked, user);
            var s := RowsOf(after, chat);
            i < |s| && Some(s[i].handle) == handle && s[i].contract == contract
  {
    var s := RowsOf(rows, chat);
    var after := HandleFor(rows, chat, contract, asked, user).1;
    if Find(s, contract).Some? {
      i :| 0 <= i < |s| && s[i] == Find(s, contract).value;
    } else {
      RowsOfNext(rows, after[|rows|], chat);
      i := |s|;
    }
  }

  /** It resolves to the contract, then and after any later rows. */
  lemma {:induction false} HandleResolves(rows: seq<Row>, chat: Chat, contract: string, asked: Option<string>,
      user: Option<string>, later: seq<Row>)
    requires var (handle, after) := HandleFor(rows, chat, contract, asked, user);
             handle.Some? && after <= later && Unique(RowsOf(later, chat))
    ensures Resolve(RowsOf(later, chat), HandleFor(rows, chat, contract, asked, user).0.value) == Some(contract)
  {
    var after := HandleFor(rows, chat, contract, asked, user).1;
    var i := HandleHasRow(rows, chat, contract, asked, user);
    RowsOfAppend(after, later[|after|..], chat);
    assert after + later[|after|..] == later;
    ResolveAt(RowsOf(later, chat), i);
  }

  // ---- when minting is refused ----

  /** Minting for a contract without a handle is refused exactly when the chat has a row that is named
      like the number of its rows. */
  lemma {:induction false} MintRefusedIff(rows: seq<Row>, chat: Chat, contract: string, user: Option<string>)
    ensures HandleFor(rows, chat, contract, None, user).0 == None <==>
            && contract !in Contracts(RowsOf(rows, chat))
            && exists i :: 0 <= i < |RowsOf(rows, chat)|
                           && RowsOf(rows, chat)[i].handle == HandleName(|RowsOf(rows, chat)|)
  {
    FindIff(RowsOf(rows, chat), contract);
    ResolveIff(RowsOf(rows, chat), HandleName(|RowsOf(rows, chat)|));
  }

  lemma {:induction false} ResolveIff(s: seq<Row>, handle: string)
    ensures Resolve(s, handle).Some? <==> exists i :: 0 <= i < |s| && s[i].handle == handle
  {
    if s != [] {
      var n := |s| - 1;
      ResolveIff(s[..n], handle);
      if exists i :: 0 <= i < n && s[..n][i].handle == handle {
        var i :| 0 <= i < n && s[..n][i].handle == handle;
        assert s[i].handle == handle;
      }
      if exists i :: 0 <= i < |s| && s[i].handle == handle {
        var i :| 0 <= i < |s| && s[i].handle == handle;
        assert i < n ==> s[..n][i].handle == handle;
      }
    }
  }

  lemma {:induction false} ResolveOne(r: Row, handle: string)
    ensures Resolve([r], handle) == if r.handle == handle then Some(r.contract) else None
  {
    assert [r][..0] == [];
  }

  /** The next number's name is taken. */
  predicate MintsRefused(rows: seq<Row>, chat: Chat) {
    Resolve(RowsOf(rows, chat), HandleName(|RowsOf(rows, chat)|)).Some?
  }

  /** One request for a handle: by name, or minted. */
  datatype Wanted = Wanted(chat: Chat, contract: string, asked: Option<string>, user: Option<string>)

  function AfterAll(rows: seq<Row>, wanted: seq<Wanted>): seq<Row> {
    if wanted == [] then rows
    else
      var n := |wanted| - 1;
      var w := wanted[n];
      HandleFor(AfterAll(rows, wanted[..n]), w.chat, w.contract, w.asked, w.user).1
  }

  /** No request names a handle for the chat. */
  predicate OnlyMints(wanted: seq<Wanted>, chat: Chat) {
    forall i :: 0 <= i < |wanted| ==> wanted[i].chat == chat ==> wanted[i].asked == None
  }

  /** A refusal does not move the count: once the next number is taken, the chat gets no row, and every mint
      for a new contract is refused, until a handle is asked for by name. */
  lemma {:induction false} RefusedUntilAsked(rows: seq<Row>, chat: Chat, wanted: seq<Wanted>)
    requires MintsRefused(rows, chat) && OnlyMints(wanted, chat)
    ensures RowsOf(AfterAll(rows, wanted), chat) == RowsOf(rows, chat) && MintsRefused(AfterAll(rows, wanted), chat)
  {
    if wanted != [] {
      var n := |wanted| - 1;
      var before, w := AfterAll(rows, wanted[..n]), wanted[n];
      RefusedUntilAsked(rows, chat, wanted[..n]);
      var after := HandleFor(before, w.chat, w.contract, w.asked, w.user).1;
      if after != before {
        RowsOfNext(before, after[|before|], chat);
      }
    }
  }

  /** The first name asked for can be the one that minting comes to: then no contract is minted after it. */
  lemma {:induction false} RequestedHandleBlocks(chat: Chat, a: string, b: string, user: Option<string>)
    requires a != b
    ensures var (handle, rows) := HandleFor([], chat, a, Some("contract-1"), user);
            handle == Some("contract-1") && MintsRefused(rows, chat)
            && HandleFor(rows, chat, b, None, user) == (None, rows)
  {
    var r := Row(chat.org, chat.session, a, "contract-1", user);
    assert [] + [r] == [r] && [r][..0] == [];
    assert RowsOf([r], chat) == [r] && Find([r], b) == None;
    assert HandleName(1) == "contract-1";
    assert Resolve([r], "contract-1") == Some(a);
  }

  // ---- chats in which every handle was minted ----

  /** Handles numbered in the order they were added: see `NumberedMeans`. */
  predicate Numbered(s: seq<Row>) {
    s == [] || (Numbered(s[..|s| - 1]) && s[|s| - 1].handle == HandleName(|s| - 1))
  }

  /** The chat's handles are exactly contract-0, contract-1, … in order, for distinct contracts. */
  lemma {:induction false} NumberedMeans(s: seq<Row>)
    requires Numbered(s) && Unique(s)
    ensures forall i :: 0 <= i < |s| ==> s[i].handle == HandleName(i)
    ensures forall i, j :: 0 <= i < j < |s| ==> s[i].contract != s[j].contract
    ensures |Contracts(s)| == |s|
  {
    if s != [] {
      var n := |s| - 1;
      NumberedMeans(s[..n]);
      FindIff(s[..n], s[n].contract);
      forall i | 0 <= i < n ensures s[i].contract != s[n].contract {
        ContractsAt(s[..n], i);
      }
    }
  }

  lemma {:induction false} ContractsAt(s: seq<Row>, i: nat)
    requires i < |s|
    ensures s[i].contract in Contracts(s)
  {
    if i < |s| - 1 {
      ContractsAt(s[..|s| - 1], i);
    }
  }

  lemma {:induction false} HandleNamesDiffer(m: nat, n: nat)
    requires m != n
    ensures HandleName(m) != HandleName(n)
  {
    if HandleName(m) == HandleName(n) {
      DecimalInjective("contract-", m, n);
    }
  }

  lemma {:induction false} NextNameIsFree(s: seq<Row>, n: nat)
    requires Numbered(s) && |s| <= n
    ensures Resolve(s, HandleName(n)) == None
  {
    if s != [] {
      NextNameIsFree(s[..|s| - 1], n);
      HandleNamesDiffer(|s| - 1, n);
    }
  }

  /** There minting is never refused, and keeps every chat numbered. */
  lemma {:induction false} MintKeepsNumbered(rows: seq<Row>, chat: Chat, contract: string, user: Option<string>,
      other: Chat)
    requires Numbered(RowsOf(rows, other))
    ensures other == chat ==> HandleFor(rows, chat, contract, None, user).0.Some?
    ensures Numbered(RowsOf(HandleFor(rows, chat, contract, None, user).1, other))
  {
    var s := RowsOf(rows, other);
    var after := HandleFor(rows, chat, contract, None, user).1;
    NextNameIsFree(s, |s|);
    if after != rows {
      RowsOfNext(rows, after[|rows|], other);
      if other == chat {
        assert (s + [after[|rows|]])[..|s|] == s;
      } else {
        assert s + [] == s;
      }
    }
  }

  // ---- when minting for several contracts is refused ----

  predicate IsTaken(s: seq<Row>, n: nat) {
    Resolve(s, HandleName(n)).Some?
  }

  /** One of the next `k` numbers is taken. */
  predicate Taken(s: seq<Row>, k: nat) {
    exists n: nat :: |s| <= n < |s| + k && IsTaken(s, n)
  }

  /** `after` has the next `k` numbers besides. */
  ghost predicate Counted(s: seq<Row>, after: seq<Row>, k: nat) {
    |after| == |s| + k && forall n: nat :: IsTaken(after, n) <==> IsTaken(s, n) || |s| <= n < |s| + k
  }

  lemma {:induction false} TakenNext(s: seq<Row>, r: Row, n: nat)
    requires r.handle == HandleName(|s|)
    ensures IsTaken(s + [r], n) <==> IsTaken(s, n) || n == |s|
  {
    assert (s + [r])[..|s|] == s;
    if n != |s| {
      HandleNamesDiffer(n, |s|);
    }
  }

  lemma {:induction false} MintTakenIff(rows: seq<Row>, chat: Chat, contract: string, user: Option<string>)
    ensures var s, (handle, after) := RowsOf(rows, chat), HandleFor(rows, chat, contract, None, user);
            var k := if contract in Contracts(s) then 0 else 1;
            (handle == None <==> Taken(s, k)) && (handle.Some? ==> Counted(s, RowsOf(after, chat), k))
  {
    var s := RowsOf(rows, chat);
    FindIff(s, contract);
    if contract !in Contracts(s) {
      assert Taken(s, 1) <==> IsTaken(s, |s|);
      if !IsTaken(s, |s|) {
        var row := Row(chat.org, chat.session, contract, HandleName(|s|), user);
        RowsOfNext(rows, row, chat);
        forall n: nat ensures IsTaken(s + [row], n) <==> IsTaken(s, n) || n == |s| {
          TakenNext(s, row, n);
        }
      }
    }
  }

  lemma {:induction false} TakenTwice(s: seq<Row>, between: seq<Row>, k: nat, l: nat)
    requires Counted(s, between, k) && !Taken(s, k)
    ensures Taken(s, k + l) <==> Taken(between, l)
  {
    if Taken(s, k + l) {
      var n: nat :| |s| <= n < |s| + k + l && IsTaken(s, n);
      assert IsTaken(between, n) && n >= |between|;
    }
    if Taken(between, l) {
      var n: nat :| |between| <= n < |between| + l && IsTaken(between, n);
      assert IsTaken(s, n);
    }
  }

  lemma {:induction false} TakenMore(s: seq<Row>, k: nat, l: nat)
    requires Taken(s, k)
    ensures Taken(s, k + l)
  {
    var n: nat :| |s| <= n < |s| + k && IsTaken(s, n);
    assert n < |s| + k + l && IsTaken(s, n);
  }

  lemma {:induction false} CountedTwice(s: seq<Row>, between: seq<Row>, after: seq<Row>, k: nat, l: nat)
    requires Counted(s, between, k) && Counted(between, after, l)
    ensures Counted(s, after, k + l)
  {
    forall n: nat ensures IsTaken(after, n) <==> IsTaken(s, n) || |s| <= n < |s| + k + l {
      assert IsTaken(after, n) <==> IsTaken(between, n) || |between| <= n < |between| + l;
    }
  }

  /** How many of the contracts have no handle in the chat. */
  function Without(ids: set<string>, s: seq<Row>): nat {
    |ids - Contracts(s)|
  }

  lemma {:induction false} WithoutTwice(s: seq<Row>, between: seq<Row>, a: set<string>, b: set<string>)
    requires Contracts(between) == Contracts(s) + a
    ensures Without(a + b, s) == Without(a, s) + Without(b, between)
  {
    var first, second := a - Contracts(s), b - Contracts(between);
    assert (a + b) - Contracts(s) == first + second && first !! second;
  }

  lemma {:induction false} WithoutOne(s: seq<Row>, contract: string)
    ensures Without({contract}, s) == if contract in Contracts(s) then 0 else 1
  {
    assert {contract} - Contracts(s) == if contract in Contracts(s) then {} else {contract};
  }

  /** What follows when `first` contracts are minted, with or without a refusal, and then `second`. */
  lemma {:induction false} MintedInTurn(s: seq<Row>, between: seq<Row>, a: set<string>, b: set<string>)
    requires Counted(s, between, Without(a, s)) && Contracts(between) == Contracts(s) + a && !Taken(s, Without(a, s))
    ensures Taken(s, Without(a + b, s)) <==> Taken(between, Without(b, between))
    ensures forall after :: Counted(between, after, Without(b, between)) ==> Counted(s, after, Without(a + b, s))
  {
    WithoutTwice(s, between, a, b);
    TakenTwice(s, between, Without(a, s), Without(b, between));
    forall after | Counted(between, after, Without(b, between)) ensures Counted(s, after, Without(a + b, s)) {
      CountedTwice(s, between, after, Without(a, s), Without(b, between));
    }
  }

  lemma {:induction false} RefusedEarlier(s: seq<Row>, a: set<string>, b: set<string>)
    requires Taken(s, Without(a, s))
    ensures Taken(s, Without(a + b, s))
  {
    var first, all := a - Contracts(s), (a + b) - Contracts(s);
    assert all == first + (all - first);
    TakenMore(s, Without(a, s), |all - first|);
  }

  // ---- minting for many contracts in one pass ----

  /** Minting for several contracts, one after the other; the first refusal ends it. */
  function HandleForAll(rows: seq<Row>, chat: Chat, contracts: seq<string>, user: Option<string>): Option<seq<Row>> {
    if contracts == [] then Some(rows)
    else
      var n := |contracts| - 1;
      var before := HandleForAll(rows, chat, contracts[..n], user);
      if before == None then None
      else
        var (handle, after) := HandleFor(before.value, chat, contracts[n], None, user);
        if handle == None then None else Some(after)
  }

  lemma {:induction false} OneMoreMinted(s: seq<Row>, rows: seq<Row>, chat: Chat, minted: set<string>, contract: string,
      user: Option<string>)
    requires var between := RowsOf(rows, chat);
             && Unique(between) && Counted(s, between, Without(minted, s)) && !Taken(s, Without(minted, s))
             && Contracts(between) == Contracts(s) + minted
    ensures var (handle, after) := HandleFor(rows, chat, contract, None, user);
            var k := Without(minted + {contract}, s);
            && (handle == None <==> Taken(s, k))
            && (handle.Some? ==>
                  && Unique(RowsOf(after, chat)) && Counted(s, RowsOf(after, chat), k)
                  && Contracts(RowsOf(after, chat)) == Contracts(s) + (minted + {contract}))
  {
    var between := RowsOf(rows, chat);
    MintTakenIff(rows, chat, contract, user);
    WithoutOne(between, contract);
    HandleForKeeps(rows, chat, contract, None, user, chat);
    MintedInTurn(s, between, minted, {contract});
  }

  function Elements(contracts: seq<string>): set<string> {
    set c | c in contracts
  }

  /** In any chat, minting for several contracts is refused exactly when one of the next numbers, as many as
      there are contracts without a handle, is taken. */
  lemma {:induction false} AllRefusedIff(rows: seq<Row>, chat: Chat, contracts: seq<string>, user: Option<string>)
    requires Unique(RowsOf(rows, chat))
    ensures var s, after := RowsOf(rows, chat), HandleForAll(rows, chat, contracts, user);
            var k := Without(Elements(contracts), s);
            && (after == None <==> Taken(s, k))
            && (after.Some? ==>
                  && Unique(RowsOf(after.value, chat)) && Counted(s, RowsOf(after.value, chat), k)
                  && Contracts(RowsOf(after.value, chat)) == Contracts(s) + Elements(contracts))
  {
    var s := RowsOf(rows, chat);
    if contracts == [] {
      assert Elements(contracts) == {} && Elements(contracts) - Contracts(s) == {};
    } else {
      var n := |contracts| - 1;
      var before := HandleForAll(rows, chat, contracts[..n], user);
      assert contracts == contracts[..n] + [contracts[n]];
      assert Elements(contracts) == Elements(contracts[..n]) + {contracts[n]};
      AllRefusedIff(rows, chat, contracts[..n], user);
      if before == None {
        RefusedEarlier(s, Elements(contracts[..n]), {contracts[n]});
      } else {
        OneMoreMinted(s, before.value, chat, Elements(contracts[..n]), contracts[n], user);
      }
    }
  }

  /** The rows as a map from contract to handle. */
  function HandleMap(s: seq<Row>): map<string, string> {
    if s == [] then map[]
    else
      var n := |s| - 1;
      HandleMap(s[..n])[s[n].contract := s[n].handle]
  }

  lemma {:induction false} HandleMapKeys(s: seq<Row>)
    ensures HandleMap(s).Keys == Contracts(s)
  {
    if s != [] {
      HandleMapKeys(s[..|s| - 1]);
    }
  }

  /** The map has each row once, so its size is the next number. */
  lemma {:induction false} HandleMapSize(s: seq<Row>)
    requires Unique(s)
    ensures |HandleMap(s)| == |s|
  {
    if s != [] {
      HandleMapSize(s[..|s| - 1]);
      HandleMapKeys(s[..|s| - 1]);
      FindIff(s[..|s| - 1], s[|s| - 1].contract);
    }
  }

  /** And it answers what a query for the contract does. */
  lemma {:induction false} HandleMapFinds(s: seq<Row>, contract: string)
    requires Unique(s) && contract in HandleMap(s)
    ensures Find(s, contract).Some? && Find(s, contract).value.handle == HandleMap(s)[contract]
  {
    var n := |s| - 1;
    FindIff(s[..n], contract);
    HandleMapKeys(s[..n]);
    if contract in HandleMap(s[..n]) {
      HandleMapFinds(s[..n], contract);
    }
  }

  /** Minting one handle, seen from the map. */
  lemma {:induction false} MintInMap(rows: seq<Row>, chat: Chat, contract: string, user: Option<string>)
    requires Unique(RowsOf(rows, chat))
    ensures var s, known := RowsOf(rows, chat), HandleMap(RowsOf(rows, chat));
            var (handle, after) := HandleFor(rows, chat, contract, None, user);
            var name := HandleName(|known|);
            && (contract in known ==> handle.Some? && after == rows)
            && (contract !in known ==>
                  (handle == None <==> Resolve(s, name).Some?)
                  && (handle.Some? ==>
                        && after == rows + [Row(chat.org, chat.session, contract, name, user)]
                        && HandleMap(RowsOf(after, chat)) == known[contract := name]))
  {
    var s := RowsOf(rows, chat);
    HandleMapSize(s);
    HandleMapKeys(s);
    FindIff(s, contract);
    var name := HandleName(|s|);
    if contract !in HandleMap(s) && Resolve(s, name).None? {
      var row := Row(chat.org, chat.session, contract, name, user);
      RowsOfNext(rows, row, chat);
      HandleMapNext(s, row);
    }
  }

  lemma {:induction false} HandleMapNext(s: seq<Row>, r: Row)
    ensures HandleMap(s + [r]) == HandleMap(s)[r.contract := r.handle]
  {
    assert (s + [r])[..|s|] == s;
  }
}
