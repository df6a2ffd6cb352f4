/** Tool results made safe to show to the model: internal keys go, contract ids become handles. */
module Masking {
  import opened Options
  import opened Handles

  /** A JSON value; `Other` is any number, boolean or null. A dict keeps its keys in order. */
  datatype Value = Str(s: string) | Other(raw: string) | List(items: Items) | Dict(fields: Fields)

  datatype Items = NoItems | Item(value: Value, more: Items)

  datatype Fields = NoFields | Field(key: string, value: Value, more: Fields)

  const INTERNAL_RESULT_KEYS: set<string> := {
    "text_snapshot_id", "contract_version_id", "contract_file_id", "storage_object_id", "source_version_id",
    "base_version_id", "contract_edit_id", "current_authoritative_version_id", "workflow_id", "workflow_run_id",
    "playbook_id", "playbook_version_id", "playbook_rule_id", "playbook_run_id", "playbook_deviation_id",
    "approval_request_id", "approval_request_ids", "signature_request_id", "job_id", "tabular_review_id",
    "column_id", "contract_share_id", "external_share_token", "tool_call_id", "confirmation_id"
  }

  predicate IsInternal(key: string) {
    key in INTERNAL_RESULT_KEYS
  }

  predicate IsContractId(key: string, value: Value) {
    key == "contract_id" && value.Str? && value.s != ""
  }

  /** Assignment to a dict's key: in place when the key is there, at the end otherwise. */
  function Put(fields: Fields, key: string, value: Value): Fields {
    match fields
    case NoFields => Field(key, value, NoFields)
    case Field(k, v, more) => if k == key then Field(k, value, more) else Field(k, v, Put(more, key, value))
  }

  function PutItem(items: Items, value: Value): Items {
    match items
    case NoItems => Item(value, NoItems)
    case Item(v, more) => Item(v, PutItem(more, value))
  }

  /** Who the result is for. */
  datatype For = For(chat: Chat, user: Option<string>)

  /** A masked part of a result and the handle table after it, or the refusal of a new handle, which ends the
      masking of the whole result. */
  datatype Masked<T> = Done(value: T, rows: seq<Row>) | Refused

  function Mask(v: Value, w: For, rows: seq<Row>): Masked<Value> {
    match v
    case Dict(fields) =>
      var out := MaskFields(fields, NoFields, w, rows);
      if out.Refused? then Refused else Done(Dict(out.value), out.rows)
    case List(items) =>
      var out := MaskItems(items, NoItems, w, rows);
      if out.Refused? then Refused else Done(List(out.value), out.rows)
    case _ => Done(v, rows)
  }

  function MaskFields(fields: Fields, out: Fields, w: For, rows: seq<Row>): Masked<Fields> {
    match fields
    case NoFields => Done(out, rows)
    case Field(key, value, more) =>
      if IsInternal(key) then MaskFields(more, out, w, rows)
      else if IsContractId(key, value) then
        var (handle, after) := HandleFor(rows, w.chat, value.s, None, w.user);
        if handle == None then Refused
        else MaskFields(more, Put(out, "contract_handle", Str(handle.value)), w, after)
      else
        var masked := Mask(value, w, rows);
        if masked.Refused? then Refused else MaskFields(more, Put(out, key, masked.value), w, masked.rows)
  }

  function MaskItems(items: Items, out: Items, w: For, rows: seq<Row>): Masked<Items> {
    match items
    case NoItems => Done(out, rows)
    case Item(value, more) =>
      var masked := Mask(value, w, rows);
      if masked.Refused? then Refused else MaskItems(more, PutItem(out, masked.value), w, masked.rows)
  }

  /** The handle table, with the methods that share it. */
  class HandleTable {
    var rows: seq<Row>

    constructor ()
      ensures rows == []
    {
      rows := [];
    }

    method HandleForContract(w: For, contract: string) returns (handle: Option<string>)
      modifies this
      ensures (handle, rows) == HandleFor(old(rows), w.chat, contract, None, w.user)
    {
      var existing := Find(RowsOf(rows, w.chat), contract);
      if existing.Some? {
        return Some(existing.value.handle);
      }
      var count := |RowsOf(rows, w.chat)|;
      handle := Insert(w, contract, HandleName(count));
    }

    /** The row insert, which the unique constraint refuses for a taken name. */
    method Insert(w: For, contract: string, name: string) returns (handle: Option<string>)
      modifies this
      ensures handle == if Resolve(RowsOf(old(rows), w.chat), name).Some? then None else Some(name)
      ensures rows == if handle == None then old(rows)
                      else old(rows) + [Row(w.chat.org, w.chat.session, contract, name, w.user)]
    {
      if Resolve(RowsOf(rows, w.chat), name).Some? {
        return None;
      }
      rows := rows + [Row(w.chat.org, w.chat.session, contract, name, w.user)];
      handle := Some(name);
    }

    /** A handle for a contract that a user adds to the chat; an empty name asks for none. */
    method EnsureContractHandle(w: For, contract: string, requested: string) returns (handle: Option<string>)
      modifies this
      ensures var asked := if requested == "" then None else Some(requested);
              (handle, rows) == HandleFor(old(rows), w.chat, contract, asked, w.user)
    {
      var existing := Find(RowsOf(rows, w.chat), contract);
      if existing.Some? {
        return Some(existing.value.handle);
      }
      if requested == "" {
        handle := HandleForContract(w, contract);
      } else {
        handle := Insert(w, contract, requested);
      }
    }

    /** Handles for many contracts in one pass: the chat's rows are read once, and the map they are
        kept in counts them. It mints what asking one by one would, and is refused when that would be. */
    method ContractHandles(w: For, contracts: seq<string>) returns (handles: Option<map<string, string>>)
      requires Unique(RowsOf(rows, w.chat))
      modifies this
      ensures handles == None <==> HandleForAll(old(rows), w.chat, contracts, w.user) == None
      ensures handles == None ==> rows == old(rows)
      ensures handles.Some? ==>
                && HandleForAll(old(rows), w.chat, contracts, w.user) == Some(rows)
                && handles.value == HandleMap(RowsOf(rows, w.chat))
    {
      var before := rows;
      var known := ReadHandles(w.chat);
      for k := 0 to |contracts|
        invariant HandleForAll(before, w.chat, contracts[..k], w.user) == Some(rows)
        invariant Unique(RowsOf(rows, w.chat)) && known == HandleMap(RowsOf(rows, w.chat))
      {
        AllNext(before, w.chat, contracts, k, w.user, rows);
        var more := MintIfNew(w, contracts[k], known);
        if more == None {
          StaysRefused(before, w.chat, contracts, k + 1, w.user);
          rows := before;
          return None;
        }
        known := more.value;
      }
      assert contracts[..|contracts|] == contracts;
      handles := Some(known);
    }

    method ReadHandles(chat: Chat) returns (handles: map<string, string>)
      ensures handles == HandleMap(RowsOf(rows, chat))
    {
      handles := map[];
      var s := RowsOf(rows, chat);
      for k := 0 to |s|
        invariant handles == HandleMap(s[..k])
      {
        assert s[..k + 1][..k] == s[..k];
        handles := handles[s[k].contract := s[k].handle];
      }
      assert s[..|s|] == s;
    }

    method MintIfNew(w: For, contract: string, known: map<string, string>)
      returns (handles: Option<map<string, string>>)
      requires Unique(RowsOf(rows, w.chat)) && known == HandleMap(RowsOf(rows, w.chat))
      modifies this
      ensures var (handle, after) := HandleFor(old(rows), w.chat, contract, None, w.user);
              rows == after && (handles == None <==> handle == None)
      ensures handles.Some? ==> Unique(RowsOf(rows, w.chat)) && handles.value == HandleMap(RowsOf(rows, w.chat))
    {
      MintInMap(rows, w.chat, contract, w.user);
      HandleForKeeps(rows, w.chat, contract, None, w.user, w.chat);
      if contract in known {
        return Some(known);
      }
      var name := HandleName(|known|);
      var handle := Insert(w, contract, name);
      handles := if handle == None then None else Some(known[contract := name]);
    }

    /** One result, in the transaction it is recorded in: a refusal rolls back the handles it had minted. */
    method ShowResult(v: Value, w: For) returns (r: Option<Value>)
      modifies this
      ensures match Mask(v, w, old(rows))
              case Done(value, after) => r == Some(value) && rows == after
              case Refused => r == None && rows == old(rows)
    {
      var committed := rows;
      r := ModelSafeResult(v, w);
      if r == None {
        rows := committed;
      }
    }

    method ModelSafeResult(v: Value, w: For) returns (r: Option<Value>)
      modifies this
      ensures match Mask(v, w, old(rows))
              case Done(value, after) => r == Some(value) && rows == after
              case Refused => r == None
      decreases v, 1
    {
      match v
      case Dict(fields) =>
        var out := SafeFields(fields, w);
        r := if out == None then None else Some(Dict(out.value));
      case List(items) =>
        var out := SafeItems(items, w);
        r := if out == None then None else Some(List(out.value));
      case _ =>
        r := Some(v);
    }

    /** The loop over a dict's items. */
    method SafeFields(fields: Fields, w: For) returns (r: Option<Fields>)
      modifies this
      ensures match MaskFields(fields, NoFields, w, old(rows))
              case Done(value, after) => r == Some(value) && rows == after
              case Refused => r == None
      decreases fields, 0
    {
      var out, rest := NoFields, fields;
      while rest.Field?
        invariant rest == fields || rest < fields
        invariant MaskFields(rest, out, w, rows) == MaskFields(fields, NoFields, w, old(rows))
        decreases rest
      {
        var key, item := rest.key, rest.value;
        if IsInternal(key) {
          rest := rest.more;
          continue;
        }
        if IsContractId(key, item) {
          var handle := HandleForContract(w, item.s);
          if handle == None {
            return None;
          }
          out := Put(out, "contract_handle", Str(handle.value));
        } else {
          var masked := ModelSafeResult(item, w);
          if masked == None {
            return None;
          }
          out := Put(out, key, masked.value);
        }
        rest := rest.more;
      }
      r := Some(out);
    }

    /** The loop over a list. */
    method SafeItems(items: Items, w: For) returns (r: Option<Items>)
      modifies this
      ensures match MaskItems(items, NoItems, w, old(rows))
              case Done(value, after) => r == Some(value) && rows == after
              case Refused => r == None
      decreases items, 0
    {
      var out, rest := NoItems, items;
      while rest.Item?
        invariant rest == items || rest < items
        invariant MaskItems(rest, out, w, rows) == MaskItems(items, NoItems, w, old(rows))
        decreases rest
      {
        var masked := ModelSafeResult(rest.value, w);
        if masked == None {
          return None;
        }
        out := PutItem(out, masked.value);
        rest := rest.more;
      }
      r := Some(out);
    }
  }

  lemma {:induction false} AllNext(before: seq<Row>, chat: Chat, contracts: seq<string>, k: nat, user: Option<string>,
      rows: seq<Row>)
    requires k < |contracts| && HandleForAll(before, chat, contracts[..k], user) == Some(rows)
    ensures var (handle, after) := HandleFor(rows, chat, contracts[k], None, user);
            HandleForAll(before, chat, contracts[..k + 1], user) == if handle == None then None else Some(after)
  {
    assert contracts[..k + 1][..k] == contracts[..k];
  }

  lemma {:induction false} StaysRefused(rows: seq<Row>, chat: Chat, contracts: seq<string>, k: nat,
      user: Option<string>)
    requires k <= |contracts| && HandleForAll(rows, chat, contracts[..k], user) == None
    ensures HandleForAll(rows, chat, contracts, user) == None
  {
    if k < |contracts| {
      var n := |contracts| - 1;
      assert contracts[..n][..k] == contracts[..k];
      StaysRefused(rows, chat, contracts[..n], k, user);
    } else {
      assert contracts[..k] == contracts;
    }
  }

  // ---- what masking does to the handle table ----

  /** The contract ids that a result shows, at any depth. */
  function Ids(v: Value): set<string> {
    match v
    case Dict(fields) => IdsOfFields(fields)
    case List(items) => IdsOfItems(items)
    case _ => {}
  }

  function IdsOfFields(fields: Fields): set<string> {
    match fields
    case NoFields => {}
    case Field(key, value, more) =>
      (if IsInternal(key) then {} else if IsContractId(key, value) then {value.s} else Ids(value)) + IdsOfFields(more)
  }

  function IdsOfItems(items: Items): set<string> {
    match items
    case NoItems => {}
    case Item(value, more) => Ids(value) + IdsOfItems(more)
  }

  /** Old rows stay, the chat's rows stay unique, and the new ones are for the contracts `ids`. */
  predicate Minted(rows: seq<Row>, after: seq<Row>, chat: Chat, ids: set<string>) {
    && rows <= after
    && Unique(RowsOf(after, chat))
    && Contracts(RowsOf(after, chat)) == Contracts(RowsOf(rows, chat)) + ids
  }

  function InOwnChat(w: For, chat: Chat, ids: set<string>): set<string> {
    if w.chat == chat then ids else {}
  }

  /** A result adds handles for exactly the contract ids it shows, in its own chat only. */
  lemma {:induction false} MaskMints(v: Value, w: For, rows: seq<Row>, chat: Chat)
    requires Unique(RowsOf(rows, chat)) && Mask(v, w, rows).Done?
    ensures Minted(rows, Mask(v, w, rows).rows, chat, InOwnChat(w, chat, Ids(v)))
  {
    match v
    case Dict(fields) => MaskFieldsMints(fields, NoFields, w, rows, chat);
    case List(items) => MaskItemsMints(items, NoItems, w, rows, chat);
    case _ =>
  }

  lemma {:induction false} MaskFieldsMints(fields: Fields, out: Fields, w: For, rows: seq<Row>, chat: Chat)
    requires Unique(RowsOf(rows, chat)) && MaskFields(fields, out, w, rows).Done?
    ensures Minted(rows, MaskFields(fields, out, w, rows).rows, chat, InOwnChat(w, chat, IdsOfFields(fields)))
  {
    match fields
    case NoFields =>
    case Field(key, value, more) =>
      var later := MaskFields(fields, out, w, rows).rows;
      if IsInternal(key) {
        MaskFieldsMints(more, out, w, rows, chat);
      } else if IsContractId(key, value) {
        var (handle, after) := HandleFor(rows, w.chat, value.s, None, w.user);
        HandleForKeeps(rows, w.chat, value.s, None, w.user, chat);
        MaskFieldsMints(more, Put(out, "contract_handle", Str(handle.value)), w, after, chat);
        MintedTwice(rows, after, later, w, chat, {value.s}, IdsOfFields(more));
      } else {
        var masked := Mask(value, w, rows);
        MaskMints(value, w, rows, chat);
        MaskFieldsMints(more, Put(out, key, masked.value), w, masked.rows, chat);
        MintedTwice(rows, masked.rows, later, w, chat, Ids(value), IdsOfFields(more));
      }
  }

  lemma {:induction false} MintedTwice(a: seq<Row>, b: seq<Row>, c: seq<Row>, w: For, chat: Chat,
      first: set<string>, second: set<string>)
    requires Minted(a, b, chat, InOwnChat(w, chat, first)) && Minted(b, c, chat, InOwnChat(w, chat, second))
    ensures Minted(a, c, chat, InOwnChat(w, chat, first + second))
  {
  }

  lemma {:induction false} MaskItemsMints(items: Items, out: Items, w: For, rows: seq<Row>, chat: Chat)
    requires Unique(RowsOf(rows, chat)) && MaskItems(items, out, w, rows).Done?
    ensures Minted(rows, MaskItems(items, out, w, rows).rows, chat, InOwnChat(w, chat, IdsOfItems(items)))
  {
    match items
    case NoItems =>
    case Item(value, more) =>
      var masked := Mask(value, w, rows);
      MaskMints(value, w, rows, chat);
      MaskItemsMints(more, PutItem(out, masked.value), w, masked.rows, chat);
      MintedTwice(rows, masked.rows, MaskItems(items, out, w, rows).rows, w, chat, Ids(value), IdsOfItems(more));
  }

  /** In a numbered chat masking is never refused, and every chat stays numbered. */
  lemma {:induction false} MaskKeepsNumbered(v: Value, w: For, rows: seq<Row>, chat: Chat)
    requires Numbered(RowsOf(rows, chat))
    ensures chat == w.chat ==> Mask(v, w, rows).Done?
    ensures Mask(v, w, rows).Done? ==> Numbered(RowsOf(Mask(v, w, rows).rows, chat))
  {
    match v
    case Dict(fields) => MaskFieldsKeepsNumbered(fields, NoFields, w, rows, chat);
    case List(items) => MaskItemsKeepsNumbered(items, NoItems, w, rows, chat);
    case _ =>
  }

  lemma {:induction false} MaskFieldsKeepsNumbered(fields: Fields, out: Fields, w: For, rows: seq<Row>, chat: Chat)
    requires Numbered(RowsOf(rows, chat))
    ensures chat == w.chat ==> MaskFields(fields, out, w, rows).Done?
    ensures MaskFields(fields, out, w, rows).Done? ==> Numbered(RowsOf(MaskFields(fields, out, w, rows).rows, chat))
  {
    match fields
    case NoFields =>
    case Field(key, value, more) =>
      if IsInternal(key) {
        MaskFieldsKeepsNumbered(more, out, w, rows, chat);
      } else if IsContractId(key, value) {
        var (handle, after) := HandleFor(rows, w.chat, value.s, None, w.user);
        MintKeepsNumbered(rows, w.chat, value.s, w.user, chat);
        if handle.Some? {
          MaskFieldsKeepsNumbered(more, Put(out, "contract_handle", Str(handle.value)), w, after, chat);
        }
      } else {
        var masked := Mask(value, w, rows);
        MaskKeepsNumbered(value, w, rows, chat);
        if masked.Done? {
          MaskFieldsKeepsNumbered(more, Put(out, key, masked.value), w, masked.rows, chat);
        }
      }
  }

  lemma {:induction false} MaskItemsKeepsNumbered(items: Items, out: Items, w: For, rows: seq<Row>, chat: Chat)
    requires Numbered(RowsOf(rows, chat))
    ensures chat == w.chat ==> MaskItems(items, out, w, rows).Done?
    ensures MaskItems(items, out, w, rows).Done? ==> Numbered(RowsOf(MaskItems(items, out, w, rows).rows, chat))
  {
    match items
    case NoItems =>
    case Item(value, more) =>
      var masked := Mask(value, w, rows);
      MaskKeepsNumbered(value, w, rows, chat);
      if masked.Done? {
        MaskItemsKeepsNumbered(more, PutItem(out, masked.value), w, masked.rows, chat);
      }
  }

  /** In any chat, exactly the results are refused that show so many contracts without a handle that one of
      as many next numbers is taken; a result that is not refused takes these numbers. */
  lemma {:induction false} MaskRefusedIff(v: Value, w: For, rows: seq<Row>)
    requires Unique(RowsOf(rows, w.chat))
    ensures var s, k := RowsOf(rows, w.chat), Without(Ids(v), RowsOf(rows, w.chat));
            && (Mask(v, w, rows).Refused? <==> Taken(s, k))
            && (Mask(v, w, rows).Done? ==> Counted(s, RowsOf(Mask(v, w, rows).rows, w.chat), k))
  {
    match v
    case Dict(fields) => MaskFieldsRefusedIff(fields, NoFields, w, rows);
    case List(items) => MaskItemsRefusedIff(items, NoItems, w, rows);
    case _ => NothingMinted(RowsOf(rows, w.chat));
  }

  lemma {:induction false} NothingMinted(s: seq<Row>)
    ensures Without({}, s) == 0 && !Taken(s, 0) && Counted(s, s, 0)
  {
    assert {} - Contracts(s) == {};
  }

  lemma {:induction false} MaskFieldsRefusedIff(fields: Fields, out: Fields, w: For, rows: seq<Row>)
    requires Unique(RowsOf(rows, w.chat))
    ensures var s, masked := RowsOf(rows, w.chat), MaskFields(fields, out, w, rows);
            && (masked.Refused? <==> Taken(s, Without(IdsOfFields(fields), s)))
            && (masked.Done? ==> Counted(s, RowsOf(masked.rows, w.chat), Without(IdsOfFields(fields), s)))
  {
    var s := RowsOf(rows, w.chat);
    match fields
    case NoFields => NothingMinted(s);
    case Field(key, value, more) =>
      if IsInternal(key) {
        MaskFieldsRefusedIff(more, out, w, rows);
        assert {} + IdsOfFields(more) == IdsOfFields(more);
      } else if IsContractId(key, value) {
        var (handle, after) := HandleFor(rows, w.chat, value.s, None, w.user);
        MintTakenIff(rows, w.chat, value.s, w.user);
        WithoutOne(s, value.s);
        if handle == None {
          RefusedEarlier(s, {value.s}, IdsOfFields(more));
        } else {
          HandleForKeeps(rows, w.chat, value.s, None, w.user, w.chat);
          MaskFieldsRefusedIff(more, Put(out, "contract_handle", Str(handle.value)), w, after);
          MintedInTurn(s, RowsOf(after, w.chat), {value.s}, IdsOfFields(more));
        }
      } else {
        var masked := Mask(value, w, rows);
        MaskRefusedIff(value, w, rows);
        if masked.Refused? {
          RefusedEarlier(s, Ids(value), IdsOfFields(more));
        } else {
          MaskMints(value, w, rows, w.chat);
          MaskFieldsRefusedIff(more, Put(out, key, masked.value), w, masked.rows);
          MintedInTurn(s, RowsOf(masked.rows, w.chat), Ids(value), IdsOfFields(more));
        }
      }
  }

  lemma {:induction false} MaskItemsRefusedIff(items: Items, out: Items, w: For, rows: seq<Row>)
    requires Unique(RowsOf(rows, w.chat))
    ensures var s, masked := RowsOf(rows, w.chat), MaskItems(items, out, w, rows);
            && (masked.Refused? <==> Taken(s, Without(IdsOfItems(items), s)))
            && (masked.Done? ==> Counted(s, RowsOf(masked.rows, w.chat), Without(IdsOfItems(items), s)))
  {
    var s := RowsOf(rows, w.chat);
    match items
    case NoItems => NothingMinted(s);
    case Item(value, more) =>
      var masked := Mask(value, w, rows);
      MaskRefusedIff(value, w, rows);
      if masked.Refused? {
        RefusedEarlier(s, Ids(value), IdsOfItems(more));
      } else {
        MaskMints(value, w, rows, w.chat);
        MaskItemsRefusedIff(more, PutItem(out, masked.value), w, masked.rows);
        MintedInTurn(s, RowsOf(masked.rows, w.chat), Ids(value), IdsOfItems(more));
      }
  }

  function Contract(id: string): Value {
    Dict(Field("contract_id", Str(id), NoFields))
  }

  lemma {:induction false} ContractIds(id: string, more: Items)
    requires id != ""
    ensures IdsOfItems(Item(Contract(id), more)) == {id} + IdsOfItems(more) && Ids(Contract(id)) == {id}
  {
    HandleKeyIsShown();
    assert IdsOfFields(Field("contract_id", Str(id), NoFields)) == {id} + IdsOfFields(NoFields);
  }

  /** A chat whose one handle was asked for under a later number. */
  lemma {:induction false} LaterIsTaken(w: For, c: string)
    ensures var rows := [Row(w.chat.org, w.chat.session, c, "contract-2", w.user)];
            && RowsOf(rows, w.chat) == rows && Unique(rows) && Contracts(rows) == {c}
            && Taken(rows, 2) && !Taken(rows, 1) && !MintsRefused(rows, w.chat)
  {
    var rows := [Row(w.chat.org, w.chat.session, c, "contract-2", w.user)];
    assert rows[..0] == [] && RowsOf(rows, w.chat) == rows;
    assert [] + [rows[0]] == rows;
    UniqueNext([], rows[0]);
    assert HandleName(2) == "contract-2";
    HandleNamesDiffer(1, 2);
    ResolveOne(rows[0], HandleName(1));
    ResolveOne(rows[0], HandleName(2));
    assert IsTaken(rows, 2) && !IsTaken(rows, 1);
  }

  /** There one new contract is shown, but two in one result are refused, and again at every retry, because
      the refusal takes back the first one's handle. */
  lemma {:induction false} TwoNewRefused(w: For, a: string, b: string, c: string)
    requires a != b && a != c && b != c && a != "" && b != ""
    ensures var rows := [Row(w.chat.org, w.chat.session, c, "contract-2", w.user)];
            && Mask(Contract(a), w, rows).Done?
            && Mask(List(Item(Contract(a), Item(Contract(b), NoItems))), w, rows).Refused?
  {
    var rows := [Row(w.chat.org, w.chat.session, c, "contract-2", w.user)];
    var both := Item(Contract(a), Item(Contract(b), NoItems));
    LaterIsTaken(w, c);
    ContractIds(b, NoItems);
    ContractIds(a, Item(Contract(b), NoItems));
    assert Ids(List(both)) == {a, b};
    assert {a} - {c} == {a} && {a, b} - {c} == {a, b};
    MaskRefusedIff(Contract(a), w, rows);
    MaskRefusedIff(List(both), w, rows);
  }

  // ---- nothing internal is left ----

  /** No internal key and no contract id, at any depth. */
  predicate Clean(v: Value) {
    match v
    case Dict(fields) => CleanFields(fields)
    case List(items) => CleanItems(items)
    case _ => true
  }

  predicate CleanFields(fields: Fields) {
    match fields
    case NoFields => true
    case Field(key, value, more) =>
      !IsInternal(key) && !IsContractId(key, value) && Clean(value) && CleanFields(more)
  }

  predicate CleanItems(items: Items) {
    match items
    case NoItems => true
    case Item(value, more) => Clean(value) && CleanItems(more)
  }

  lemma {:induction false} PutKeepsClean(fields: Fields, key: string, value: Value)
    requires CleanFields(fields) && !IsInternal(key) && !IsContractId(key, value) && Clean(value)
    ensures CleanFields(Put(fields, key, value))
  {
    if fields.Field? && fields.key != key {
      PutKeepsClean(fields.more, key, value);
    }
  }

  lemma {:induction false} PutItemKeepsClean(items: Items, value: Value)
    requires CleanItems(items) && Clean(value)
    ensures CleanItems(PutItem(items, value))
  {
    if items.Item? {
      PutItemKeepsClean(items.more, value);
    }
  }

  /** Whatever the result and the table, nothing internal is shown. */
  lemma {:induction false} MaskIsClean(v: Value, w: For, rows: seq<Row>)
    requires Mask(v, w, rows).Done?
    ensures Clean(Mask(v, w, rows).value)
  {
    match v
    case Dict(fields) => MaskFieldsIsClean(fields, NoFields, w, rows);
    case List(items) => MaskItemsIsClean(items, NoItems, w, rows);
    case _ =>
  }

  lemma {:induction false} MaskFieldsIsClean(fields: Fields, out: Fields, w: For, rows: seq<Row>)
    requires CleanFields(out) && MaskFields(fields, out, w, rows).Done?
    ensures CleanFields(MaskFields(fields, out, w, rows).value)
  {
    match fields
    case NoFields =>
    case Field(key, value, more) =>
      if IsInternal(key) {
        MaskFieldsIsClean(more, out, w, rows);
      } else if IsContractId(key, value) {
        var (handle, after) := HandleFor(rows, w.chat, value.s, None, w.user);
        HandleKeyIsShown();
        PutKeepsClean(out, "contract_handle", Str(handle.value));
        MaskFieldsIsClean(more, Put(out, "contract_handle", Str(handle.value)), w, after);
      } else {
        var masked := Mask(value, w, rows);
        MaskIsClean(value, w, rows);
        StaysStr(value, w, rows);
        PutKeepsClean(out, key, masked.value);
        MaskFieldsIsClean(more, Put(out, key, masked.value), w, masked.rows);
      }
  }

  lemma {:induction false} MaskItemsIsClean(items: Items, out: Items, w: For, rows: seq<Row>)
    requires CleanItems(out) && MaskItems(items, out, w, rows).Done?
    ensures CleanItems(MaskItems(items, out, w, rows).value)
  {
    match items
    case NoItems =>
    case Item(value, more) =>
      var masked := Mask(value, w, rows);
      MaskIsClean(value, w, rows);
      PutItemKeepsClean(out, masked.value);
      MaskItemsIsClean(more, PutItem(out, masked.value), w, masked.rows);
  }

  lemma {:induction false} HandleKeyIsShown()
    ensures !IsInternal("contract_handle") && !IsInternal("contract_id")
  {
  }

  lemma {:induction false} StaysStr(v: Value, w: For, rows: seq<Row>)
    requires Mask(v, w, rows).Done?
    ensures Mask(v, w, rows).value.Str? <==> v.Str?
    ensures v.Str? ==> Mask(v, w, rows).value == v
  {
  }

  // ---- looking the handles up again ----

  /** The result with its internal keys dropped, at any depth, and nothing else changed. */
  function Strip(v: Value): Value {
    match v
    case Dict(fields) => Dict(StripFields(fields))
    case List(items) => List(StripItems(items))
    case _ => v
  }

  function StripFields(fields: Fields): Fields {
    match fields
    case NoFields => NoFields
    case Field(key, value, more) =>
      if IsInternal(key) then StripFields(more) else Field(key, Strip(value), StripFields(more))
  }

  function StripItems(items: Items): Items {
    match items
    case NoItems => NoItems
    case Item(value, more) => Item(Strip(value), StripItems(more))
  }

  predicate IsKnownHandle(key: string, value: Value, s: seq<Row>) {
    key == "contract_handle" && value.Str? && Resolve(s, value.s).Some?
  }

  /** Every handle that is looked up successfully in the chat's rows `s` put back as the contract id. */
  function Unmask(v: Value, s: seq<Row>): Value {
    match v
    case Dict(fields) => Dict(UnmaskFields(fields, s))
    case List(items) => List(UnmaskItems(items, s))
    case _ => v
  }

  function UnmaskFields(fields: Fields, s: seq<Row>): Fields {
    match fields
    case NoFields => NoFields
    case Field(key, value, more) =>
      if IsKnownHandle(key, value, s) then
        Field("contract_id", Str(Resolve(s, value.s).value), UnmaskFields(more, s))
      else
        Field(key, Unmask(value, s), UnmaskFields(more, s))
  }

  function UnmaskItems(items: Items, s: seq<Row>): Items {
    match items
    case NoItems => NoItems
    case Item(value, more) => Item(Unmask(value, s), UnmaskItems(more, s))
  }

  function Keys(fields: Fields): set<string> {
    match fields
    case NoFields => {}
    case Field(key, _, more) => {key} + Keys(more)
  }

  /** A dict's keys differ. */
  predicate UniqueKeys(v: Value) {
    match v
    case Dict(fields) => UniqueKeysFields(fields)
    case List(items) => UniqueKeysItems(items)
    case _ => true
  }

  predicate UniqueKeysFields(fields: Fields) {
    match fields
    case NoFields => true
    case Field(key, value, more) => key !in Keys(more) && UniqueKeys(value) && UniqueKeysFields(more)
  }

  predicate UniqueKeysItems(items: Items) {
    match items
    case NoItems => true
    case Item(value, more) => UniqueKeys(value) && UniqueKeysItems(more)
  }

  /** How many of a dict's shown entries end up under the handle key: its own one, and a contract id. */
  function HandleWriters(fields: Fields): nat {
    match fields
    case NoFields => 0
    case Field(key, value, more) =>
      (if key == "contract_handle" || (!IsInternal(key) && IsContractId(key, value)) then 1 else 0)
      + HandleWriters(more)
  }

  /** No shown dict has both a handle key and a contract id. */
  predicate SingleWriter(v: Value) {
    match v
    case Dict(fields) => HandleWriters(fields) <= 1 && SingleWriterFields(fields)
    case List(items) => SingleWriterItems(items)
    case _ => true
  }

  predicate SingleWriterFields(fields: Fields) {
    match fields
    case NoFields => true
    case Field(key, value, more) => (IsInternal(key) || SingleWriter(value)) && SingleWriterFields(more)
  }

  predicate SingleWriterItems(items: Items) {
    match items
    case NoItems => true
    case Item(value, more) => SingleWriter(value) && SingleWriterItems(more)
  }

  /** No shown dict has a handle key of its own whose value is one of the chat's handles. */
  predicate NoKnownHandle(v: Value, s: seq<Row>) {
    match v
    case Dict(fields) => NoKnownHandleFields(fields, s)
    case List(items) => NoKnownHandleItems(items, s)
    case _ => true
  }

  predicate NoKnownHandleFields(fields: Fields, s: seq<Row>) {
    match fields
    case NoFields => true
    case Field(key, value, more) =>
      (IsInternal(key) || (!IsKnownHandle(key, value, s) && NoKnownHandle(value, s))) && NoKnownHandleFields(more, s)
  }

  predicate NoKnownHandleItems(items: Items, s: seq<Row>) {
    match items
    case NoItems => true
    case Item(value, more) => NoKnownHandle(value, s) && NoKnownHandleItems(more, s)
  }

  function Concat(a: Fields, b: Fields): Fields {
    match a
    case NoFields => b
    case Field(key, value, more) => Field(key, value, Concat(more, b))
  }

  function ConcatItems(a: Items, b: Items): Items {
    match a
    case NoItems => b
    case Item(value, more) => Item(value, ConcatItems(more, b))
  }

  lemma {:induction false} ConcatIsAssociative(a: Fields, b: Fields, c: Fields)
    ensures Concat(Concat(a, b), c) == Concat(a, Concat(b, c))
    ensures Concat(a, NoFields) == a
  {
    if a.Field? {
      ConcatIsAssociative(a.more, b, c);
    }
  }

  lemma {:induction false} ConcatItemsIsAssociative(a: Items, b: Items, c: Items)
    ensures ConcatItems(ConcatItems(a, b), c) == ConcatItems(a, ConcatItems(b, c))
    ensures ConcatItems(a, NoItems) == a
  {
    if a.Item? {
      ConcatItemsIsAssociative(a.more, b, c);
    }
  }

  /** A new key is put at the end. */
  lemma {:induction false} PutAtEnd(fields: Fields, key: string, value: Value)
    requires key !in Keys(fields)
    ensures Put(fields, key, value) == Concat(fields, Field(key, value, NoFields))
    ensures Keys(Put(fields, key, value)) == Keys(fields) + {key}
  {
    if fields.Field? {
      PutAtEnd(fields.more, key, value);
    }
  }

  lemma {:induction false} PutItemAtEnd(items: Items, value: Value)
    ensures PutItem(items, value) == ConcatItems(items, Item(value, NoItems))
  {
    if items.Item? {
      PutItemAtEnd(items.more, value);
    }
  }

  /** The loop over a dict whose handle key is written once, as a map over its shown entries. */
  function MaskEach(fields: Fields, w: For, rows: seq<Row>): Masked<Fields> {
    match fields
    case NoFields => Done(NoFields, rows)
    case Field(key, value, more) =>
      if IsInternal(key) then MaskEach(more, w, rows)
      else if IsContractId(key, value) then
        var (handle, after) := HandleFor(rows, w.chat, value.s, None, w.user);
        if handle == None then Refused
        else
          var rest := MaskEach(more, w, after);
          if rest.Refused? then Refused
          else Done(Field("contract_handle", Str(handle.value), rest.value), rest.rows)
      else
        var masked := Mask(value, w, rows);
        if masked.Refused? then Refused
        else
          var rest := MaskEach(more, w, masked.rows);
          if rest.Refused? then Refused else Done(Field(key, masked.value, rest.value), rest.rows)
  }

  function MaskEachItem(items: Items, w: For, rows: seq<Row>): Masked<Items> {
    match items
    case NoItems => Done(NoItems, rows)
    case Item(value, more) =>
      var masked := Mask(value, w, rows);
      if masked.Refused? then Refused
      else
        var rest := MaskEachItem(more, w, masked.rows);
        if rest.Refused? then Refused else Done(Item(masked.value, rest.value), rest.rows)
  }

  lemma {:induction false} WriterKeys(fields: Fields)
    ensures "contract_handle" in Keys(fields) ==> HandleWriters(fields) >= 1
  {
    if fields.Field? {
      WriterKeys(fields.more);
    }
  }

  lemma {:induction false} MaskFieldsIsEach(fields: Fields, out: Fields, w: For, rows: seq<Row>)
    requires UniqueKeysFields(fields) && Keys(fields) !! Keys(out) && HandleWriters(fields) <= 1
    requires HandleWriters(fields) == 1 ==> "contract_handle" !in Keys(out)
    ensures var each := MaskEach(fields, w, rows);
            MaskFields(fields, out, w, rows)
            == if each.Refused? then Refused else Done(Concat(out, each.value), each.rows)
  {
    match fields
    case NoFields => ConcatIsAssociative(out, NoFields, NoFields);
    case Field(key, value, more) =>
      WriterKeys(more);
      if IsInternal(key) {
        MaskFieldsIsEach(more, out, w, rows);
      } else if IsContractId(key, value) {
        var (handle, after) := HandleFor(rows, w.chat, value.s, None, w.user);
        if handle.Some? {
          PutAtEnd(out, "contract_handle", Str(handle.value));
          MaskFieldsIsEach(more, Put(out, "contract_handle", Str(handle.value)), w, after);
          var each := MaskEach(more, w, after);
          if each.Done? {
            ConcatIsAssociative(out, Field("contract_handle", Str(handle.value), NoFields), each.value);
          }
        }
      } else {
        var masked := Mask(value, w, rows);
        if masked.Done? {
          PutAtEnd(out, key, masked.value);
          MaskFieldsIsEach(more, Put(out, key, masked.value), w, masked.rows);
          var each := MaskEach(more, w, masked.rows);
          if each.Done? {
            ConcatIsAssociative(out, Field(key, masked.value, NoFields), each.value);
          }
        }
      }
  }

  lemma {:induction false} MaskItemsIsEach(items: Items, out: Items, w: For, rows: seq<Row>)
    ensures var each := MaskEachItem(items, w, rows);
            MaskItems(items, out, w, rows)
            == if each.Refused? then Refused else Done(ConcatItems(out, each.value), each.rows)
  {
    match items
    case NoItems => ConcatItemsIsAssociative(out, NoItems, NoItems);
    case Item(value, more) =>
      var masked := Mask(value, w, rows);
      if masked.Done? {
        PutItemAtEnd(out, masked.value);
        MaskItemsIsEach(more, PutItem(out, masked.value), w, masked.rows);
        var each := MaskEachItem(more, w, masked.rows);
        if each.Done? {
          ConcatItemsIsAssociative(out, Item(masked.value, NoItems), each.value);
        }
      }
  }

  lemma {:induction false} MaskGrows(v: Value, w: For, rows: seq<Row>)
    requires Mask(v, w, rows).Done?
    ensures rows <= Mask(v, w, rows).rows
  {
    match v
    case Dict(fields) => MaskFieldsGrows(fields, NoFields, w, rows);
    case List(items) => MaskItemsGrows(items, NoItems, w, rows);
    case _ =>
  }

  lemma {:induction false} MaskFieldsGrows(fields: Fields, out: Fields, w: For, rows: seq<Row>)
    requires MaskFields(fields, out, w, rows).Done?
    ensures rows <= MaskFields(fields, out, w, rows).rows
  {
    match fields
    case NoFields =>
    case Field(key, value, more) =>
      if IsInternal(key) {
        MaskFieldsGrows(more, out, w, rows);
      } else if IsContractId(key, value) {
        var (handle, after) := HandleFor(rows, w.chat, value.s, None, w.user);
        MaskFieldsGrows(more, Put(out, "contract_handle", Str(handle.value)), w, after);
      } else {
        var masked := Mask(value, w, rows);
        MaskGrows(value, w, rows);
        MaskFieldsGrows(more, Put(out, key, masked.value), w, masked.rows);
      }
  }

  lemma {:induction false} MaskItemsGrows(items: Items, out: Items, w: For, rows: seq<Row>)
    requires MaskItems(items, out, w, rows).Done?
    ensures rows <= MaskItems(items, out, w, rows).rows
  {
    match items
    case NoItems =>
    case Item(value, more) =>
      var masked := Mask(value, w, rows);
      MaskGrows(value, w, rows);
      MaskItemsGrows(more, PutItem(out, masked.value), w, masked.rows);
  }

  lemma {:induction false} EachGrows(fields: Fields, w: For, rows: seq<Row>)
    requires MaskEach(fields, w, rows).Done?
    ensures rows <= MaskEach(fields, w, rows).rows
  {
    match fields
    case NoFields =>
    case Field(key, value, more) =>
      if IsInternal(key) {
        EachGrows(more, w, rows);
      } else if IsContractId(key, value) {
        EachGrows(more, w, HandleFor(rows, w.chat, value.s, None, w.user).1);
      } else {
        MaskGrows(value, w, rows);
        EachGrows(more, w, Mask(value, w, rows).rows);
      }
  }

  lemma {:induction false} EachItemGrows(items: Items, w: For, rows: seq<Row>)
    requires MaskEachItem(items, w, rows).Done?
    ensures rows <= MaskEachItem(items, w, rows).rows
  {
    if items.Item? {
      MaskGrows(items.value, w, rows);
      EachItemGrows(items.more, w, Mask(items.value, w, rows).rows);
    }
  }

  /** Masking is reversible: looked up in the chat's rows, then or at any later time, the handles of the
      output mean what the contract ids and handles of the input mean. A lone handle key, which some tools
      fill themselves, passes through and resolves like one that masking wrote. */
  lemma {:induction false} UnmaskUndoesMask(v: Value, w: For, rows: seq<Row>, later: seq<Row>)
    requires UniqueKeys(v) && SingleWriter(v)
    requires Mask(v, w, rows).Done? && Mask(v, w, rows).rows <= later && Unique(RowsOf(later, w.chat))
    ensures Unmask(Mask(v, w, rows).value, RowsOf(later, w.chat)) == Unmask(Strip(v), RowsOf(later, w.chat))
  {
    match v
    case Dict(fields) =>
      MaskFieldsIsEach(fields, NoFields, w, rows);
      UnmaskUndoesEach(fields, w, rows, later);
    case List(items) =>
      MaskItemsIsEach(items, NoItems, w, rows);
      UnmaskUndoesEachItem(items, w, rows, later);
    case _ =>
  }

  lemma {:induction false} UnmaskUndoesEach(fields: Fields, w: For, rows: seq<Row>, later: seq<Row>)
    requires UniqueKeysFields(fields) && SingleWriterFields(fields)
    requires var each := MaskEach(fields, w, rows); each.Done? && each.rows <= later
    requires Unique(RowsOf(later, w.chat))
    ensures var s := RowsOf(later, w.chat);
            UnmaskFields(MaskEach(fields, w, rows).value, s) == UnmaskFields(StripFields(fields), s)
  {
    match fields
    case NoFields =>
    case Field(key, value, more) =>
      if IsInternal(key) {
        UnmaskUndoesEach(more, w, rows, later);
      } else if IsContractId(key, value) {
        var after := HandleFor(rows, w.chat, value.s, None, w.user).1;
        EachGrows(more, w, after);
        HandleResolves(rows, w.chat, value.s, None, w.user, later);
        UnmaskUndoesEach(more, w, after, later);
      } else {
        var masked := Mask(value, w, rows);
        EachGrows(more, w, masked.rows);
        StaysStr(value, w, rows);
        UnmaskUndoesMask(value, w, rows, later);
        UnmaskUndoesEach(more, w, masked.rows, later);
      }
  }

  lemma {:induction false} UnmaskUndoesEachItem(items: Items, w: For, rows: seq<Row>, later: seq<Row>)
    requires UniqueKeysItems(items) && SingleWriterItems(items)
    requires var each := MaskEachItem(items, w, rows); each.Done? && each.rows <= later
    requires Unique(RowsOf(later, w.chat))
    ensures var s := RowsOf(later, w.chat);
            UnmaskItems(MaskEachItem(items, w, rows).value, s) == UnmaskItems(StripItems(items), s)
  {
    if items.Item? {
      var masked := Mask(items.value, w, rows);
      EachItemGrows(items.more, w, masked.rows);
      UnmaskUndoesMask(items.value, w, rows, later);
      UnmaskUndoesEachItem(items.more, w, masked.rows, later);
    }
  }

  /** Nothing is looked up in a result exactly when it has no handle of the chat of its own. */
  lemma {:induction false} UnmaskSameIff(v: Value, s: seq<Row>)
    ensures Unmask(Strip(v), s) == Strip(v) <==> NoKnownHandle(v, s)
  {
    match v
    case Dict(fields) => UnmaskFieldsSameIff(fields, s);
    case List(items) => UnmaskItemsSameIff(items, s);
    case _ =>
  }

  lemma {:induction false} UnmaskFieldsSameIff(fields: Fields, s: seq<Row>)
    ensures UnmaskFields(StripFields(fields), s) == StripFields(fields) <==> NoKnownHandleFields(fields, s)
  {
    if fields.Field? {
      UnmaskFieldsSameIff(fields.more, s);
      UnmaskSameIff(fields.value, s);
    }
  }

  lemma {:induction false} UnmaskItemsSameIff(items: Items, s: seq<Row>)
    ensures UnmaskItems(StripItems(items), s) == StripItems(items) <==> NoKnownHandleItems(items, s)
  {
    if items.Item? {
      UnmaskItemsSameIff(items.more, s);
      UnmaskSameIff(items.value, s);
    }
  }

  function Length(fields: Fields): nat {
    match fields
    case NoFields => 0
    case Field(_, _, more) => 1 + Length(more)
  }

  lemma {:induction false} PutLength(fields: Fields, key: string, value: Value)
    ensures Length(Put(fields, key, value)) == Length(fields) + (if key in Keys(fields) then 0 else 1)
    ensures Keys(Put(fields, key, value)) == Keys(fields) + {key}
  {
    if fields.Field? && fields.key != key {
      PutLength(fields.more, key, value);
    }
  }

  lemma {:induction false} UnmaskLength(fields: Fields, s: seq<Row>)
    ensures Length(UnmaskFields(fields, s)) == Length(fields)
  {
    if fields.Field? {
      UnmaskLength(fields.more, s);
    }
  }

  /** A dict whose handle key is written twice comes out shorter. */
  lemma {:induction false} TwoWritersLoseOne(fields: Fields, out: Fields, w: For, rows: seq<Row>)
    requires MaskFields(fields, out, w, rows).Done?
    ensures var written := HandleWriters(fields) + (if "contract_handle" in Keys(out) then 1 else 0);
            var length := Length(MaskFields(fields, out, w, rows).value);
            && length <= Length(out) + Length(StripFields(fields))
            && (written >= 2 && HandleWriters(fields) >= 1 ==> length < Length(out) + Length(StripFields(fields)))
  {
    match fields
    case NoFields =>
    case Field(key, value, more) =>
      HandleKeyIsShown();
      if IsInternal(key) {
        TwoWritersLoseOne(more, out, w, rows);
      } else if IsContractId(key, value) {
        var (handle, after) := HandleFor(rows, w.chat, value.s, None, w.user);
        PutLength(out, "contract_handle", Str(handle.value));
        TwoWritersLoseOne(more, Put(out, "contract_handle", Str(handle.value)), w, after);
      } else {
        var masked := Mask(value, w, rows);
        PutLength(out, key, masked.value);
        TwoWritersLoseOne(more, Put(out, key, masked.value), w, masked.rows);
      }
  }

  /** A result comes back as it was, but for its internal keys, exactly when no shown dict has a handle key
      that resolves in the chat, or a handle key and a contract id at once. */
  lemma {:induction false} MaskIsFaithfulIff(v: Value, w: For, rows: seq<Row>, later: seq<Row>)
    requires UniqueKeys(v)
    requires Mask(v, w, rows).Done? && Mask(v, w, rows).rows <= later && Unique(RowsOf(later, w.chat))
    ensures Unmask(Mask(v, w, rows).value, RowsOf(later, w.chat)) == Strip(v)
       <==> SingleWriter(v) && NoKnownHandle(v, RowsOf(later, w.chat))
  {
    if SingleWriter(v) {
      UnmaskUndoesMask(v, w, rows, later);
      UnmaskSameIff(v, RowsOf(later, w.chat));
    } else if Unmask(Mask(v, w, rows).value, RowsOf(later, w.chat)) == Strip(v) {
      FaithfulIsSingle(v, w, rows, later);
    }
  }

  lemma {:induction false} FaithfulIsSingle(v: Value, w: For, rows: seq<Row>, later: seq<Row>)
    requires UniqueKeys(v) && Mask(v, w, rows).Done?
    requires Unmask(Mask(v, w, rows).value, RowsOf(later, w.chat)) == Strip(v)
    ensures SingleWriter(v)
  {
    match v
    case Dict(fields) =>
      TwoWritersLoseOne(fields, NoFields, w, rows);
      UnmaskLength(MaskFields(fields, NoFields, w, rows).value, RowsOf(later, w.chat));
      MaskFieldsIsEach(fields, NoFields, w, rows);
      FaithfulFieldsAreSingle(fields, w, rows, later);
    case List(items) =>
      MaskItemsIsEach(items, NoItems, w, rows);
      FaithfulItemsAreSingle(items, w, rows, later);
    case _ =>
  }

  lemma {:induction false} FaithfulFieldsAreSingle(fields: Fields, w: For, rows: seq<Row>, later: seq<Row>)
    requires UniqueKeysFields(fields) && MaskEach(fields, w, rows).Done?
    requires UnmaskFields(MaskEach(fields, w, rows).value, RowsOf(later, w.chat)) == StripFields(fields)
    ensures SingleWriterFields(fields)
  {
    match fields
    case NoFields =>
    case Field(key, value, more) =>
      if IsInternal(key) {
        FaithfulFieldsAreSingle(more, w, rows, later);
      } else if IsContractId(key, value) {
        FaithfulFieldsAreSingle(more, w, HandleFor(rows, w.chat, value.s, None, w.user).1, later);
      } else {
        var masked := Mask(value, w, rows);
        FaithfulIsSingle(value, w, rows, later);
        FaithfulFieldsAreSingle(more, w, masked.rows, later);
      }
  }

  lemma {:induction false} FaithfulItemsAreSingle(items: Items, w: For, rows: seq<Row>, later: seq<Row>)
    requires UniqueKeysItems(items) && MaskEachItem(items, w, rows).Done?
    requires UnmaskItems(MaskEachItem(items, w, rows).value, RowsOf(later, w.chat)) == StripItems(items)
    ensures SingleWriterItems(items)
  {
    if items.Item? {
      FaithfulIsSingle(items.value, w, rows, later);
      FaithfulItemsAreSingle(items.more, w, Mask(items.value, w, rows).rows, later);
    }
  }

  /** An empty contract id is left alone. */
  lemma {:induction false} EmptyIdStays(w: For, rows: seq<Row>)
    ensures var v := Dict(Field("contract_id", Str(""), NoFields)); Mask(v, w, rows) == Done(v, rows)
  {
    var fields := Field("contract_id", Str(""), NoFields);
    HandleKeyIsShown();
    assert Mask(Str(""), w, rows) == Done(Str(""), rows);
    assert Put(NoFields, "contract_id", Str("")) == fields;
    assert MaskFields(fields, NoFields, w, rows) == MaskFields(NoFields, fields, w, rows);
  }

  /** A lone handle of the chat, as the search tools put it into their results. */
  lemma {:induction false} LoneHandlePasses(handle: string, id: string, w: For, rows: seq<Row>, later: seq<Row>)
    requires Resolve(RowsOf(later, w.chat), handle) == Some(id)
    ensures var v := Dict(Field("contract_handle", Str(handle), NoFields));
            && Mask(v, w, rows) == Done(v, rows)
            && Unmask(v, RowsOf(later, w.chat)) == Dict(Field("contract_id", Str(id), NoFields))
  {
    HandleKeyIsShown();
    var fields := Field("contract_handle", Str(handle), NoFields);
    assert Mask(Str(handle), w, rows) == Done(Str(handle), rows);
    assert Put(NoFields, "contract_handle", Str(handle)) == fields;
    assert MaskFields(fields, NoFields, w, rows) == MaskFields(NoFields, fields, w, rows);
    assert UnmaskFields(NoFields, RowsOf(later, w.chat)) == NoFields;
    assert UnmaskFields(fields, RowsOf(later, w.chat)) == Field("contract_id", Str(id), NoFields);
  }

  /** A dict with a handle key of its own and a contract id comes out with one entry, the minted handle. */
  lemma {:induction false} BothKeysLoseOne(handle: string, id: string, w: For, rows: seq<Row>)
    requires id != "" && HandleFor(rows, w.chat, id, None, w.user).0.Some?
    ensures var v := Dict(Field("contract_handle", Str(handle), Field("contract_id", Str(id), NoFields)));
            var (minted, after) := HandleFor(rows, w.chat, id, None, w.user);
            && Mask(v, w, rows) == Done(Dict(Field("contract_handle", Str(minted.value), NoFields)), after)
            && UniqueKeys(v) && !SingleWriter(v)
  {
    var (minted, after) := HandleFor(rows, w.chat, id, None, w.user);
    var second := Field("contract_id", Str(id), NoFields);
    var own := Field("contract_handle", Str(handle), NoFields);
    HandleKeyIsShown();
    assert Mask(Str(handle), w, rows) == Done(Str(handle), rows);
    assert Put(NoFields, "contract_handle", Str(handle)) == own;
    assert Put(own, "contract_handle", Str(minted.value)) == Field("contract_handle", Str(minted.value), NoFields);
    var put := Put(own, "contract_handle", Str(minted.value));
    assert MaskFields(second, own, w, rows) == MaskFields(NoFields, put, w, after);
    var both := Field("contract_handle", Str(handle), second);
    assert MaskFields(both, NoFields, w, rows) == MaskFields(second, own, w, rows);
    assert Keys(second) == {"contract_id"} + Keys(NoFields);
    assert HandleWriters(second) == 1 + HandleWriters(NoFields);
    assert UniqueKeysFields(NoFields) && UniqueKeysFields(second) && UniqueKeysFields(both);
  }

  // ---- whole runs ----

  /** A result shown in a chat, or a handle a user asks for; in any order and any mix of chats. */
  datatype Event = Show(w: For, value: Value) | Ask(w: For, contract: string, name: string)

  function TableAfter(events: seq<Event>): seq<Row> {
    if events == [] then []
    else
      var n := |events| - 1;
      Next(TableAfter(events[..n]), events[n])
  }

  function Next(rows: seq<Row>, e: Event): seq<Row> {
    match e
    case Show(w, value) =>
      var masked := Mask(value, w, rows);
      if masked.Refused? then rows else masked.rows
    case Ask(w, contract, name) => HandleFor(rows, w.chat, contract, Some(name), w.user).1
  }

  lemma {:induction false} NextGrows(rows: seq<Row>, e: Event, chat: Chat)
    requires Unique(RowsOf(rows, chat))
    ensures rows <= Next(rows, e) && Unique(RowsOf(Next(rows, e), chat))
  {
    match e
    case Show(w, value) =>
      if Mask(value, w, rows).Done? {
        MaskMints(value, w, rows, chat);
      }
    case Ask(w, contract, name) => HandleForKeeps(rows, w.chat, contract, Some(name), w.user, chat);
  }

  lemma {:induction false} RunIsUnique(events: seq<Event>, chat: Chat)
    ensures Unique(RowsOf(TableAfter(events), chat))
  {
    if events != [] {
      var n := |events| - 1;
      RunIsUnique(events[..n], chat);
      NextGrows(TableAfter(events[..n]), events[n], chat);
    }
  }

  /** Handles are stable: a longer run only adds rows. */
  lemma {:induction false} RunGrows(events: seq<Event>, k: nat)
    requires k <= |events|
    ensures TableAfter(events[..k]) <= TableAfter(events)
  {
    if k == |events| {
      assert events[..k] == events;
    } else {
      var n := |events| - 1;
      assert events[..n][..k] == events[..k];
      RunGrows(events[..n], k);
      RunIsUnique(events[..n], events[n].w.chat);
      NextGrows(TableAfter(events[..n]), events[n], events[n].w.chat);
    }
  }

  /** No user asks for a handle in the chat. */
  predicate NoneAsked(events: seq<Event>, chat: Chat) {
    forall i :: 0 <= i < |events| ==> events[i].Ask? ==> events[i].w.chat != chat
  }

  /** The contract ids that a chat's results have shown. */
  function Shown(events: seq<Event>, chat: Chat): set<string> {
    if events == [] then {}
    else
      var n := |events| - 1;
      Shown(events[..n], chat) + (if events[n].Show? then InOwnChat(events[n].w, chat, Ids(events[n].value)) else {})
  }

  /** After any run in which none is asked for, the chat's handles are numbered from 0, they are those of
      exactly the contracts it has been shown, and no result of the chat is ever refused. */
  lemma {:induction false} RunIsNumbered(events: seq<Event>, chat: Chat)
    requires NoneAsked(events, chat)
    ensures var s := RowsOf(TableAfter(events), chat);
            Numbered(s) && Contracts(s) == Shown(events, chat) && |s| == |Shown(events, chat)|
    ensures forall w: For, v: Value :: w.chat == chat ==> Mask(v, w, TableAfter(events)).Done?
  {
    RunRows(events, chat);
    RunIsUnique(events, chat);
    NumberedMeans(RowsOf(TableAfter(events), chat));
    forall w: For, v: Value | w.chat == chat ensures Mask(v, w, TableAfter(events)).Done? {
      MaskKeepsNumbered(v, w, TableAfter(events), chat);
    }
  }

  lemma {:induction false} RunRows(events: seq<Event>, chat: Chat)
    requires NoneAsked(events, chat)
    ensures Numbered(RowsOf(TableAfter(events), chat))
    ensures Contracts(RowsOf(TableAfter(events), chat)) == Shown(events, chat)
  {
    if events != [] {
      var n := |events| - 1;
      var rows := TableAfter(events[..n]);
      RunRows(events[..n], chat);
      RunIsUnique(events[..n], chat);
      match events[n]
      case Show(w, value) =>
        MaskKeepsNumbered(value, w, rows, chat);
        if Mask(value, w, rows).Done? {
          MaskMints(value, w, rows, chat);
        }
      case Ask(w, contract, name) =>
        HandleForKeeps(rows, w.chat, contract, Some(name), w.user, chat);
        OtherChatsRows(rows, w, contract, name, chat);
    }
  }

  lemma {:induction false} OtherChatsRows(rows: seq<Row>, w: For, contract: string, name: string, chat: Chat)
    requires w.chat != chat
    ensures RowsOf(HandleFor(rows, w.chat, contract, Some(name), w.user).1, chat) == RowsOf(rows, chat)
  {
    var after := HandleFor(rows, w.chat, contract, Some(name), w.user).1;
    if after != rows {
      RowsOfNext(rows, after[|rows|], chat);
    }
  }

  /** What the model was shown at any point of a run, with handles minted or asked for by name, can be
      resolved at its end; and it is the result itself under exactly the condition above. */
  lemma {:induction false} EveryResultUnmasks(events: seq<Event>, k: nat, w: For, v: Value)
    requires k < |events| && events[k] == Show(w, v) && UniqueKeys(v)
    requires Mask(v, w, TableAfter(events[..k])).Done?
    ensures var s := RowsOf(TableAfter(events), w.chat);
            var shown := Unmask(Mask(v, w, TableAfter(events[..k])).value, s);
            && (SingleWriter(v) ==> shown == Unmask(Strip(v), s))
            && (shown == Strip(v) <==> SingleWriter(v) && NoKnownHandle(v, s))
  {
    var rows, later := TableAfter(events[..k]), TableAfter(events);
    assert Mask(v, w, rows).rows <= later by {
      assert events[..k + 1][..k] == events[..k];
      RunGrows(events, k + 1);
    }
    RunIsUnique(events, w.chat);
    if SingleWriter(v) {
      UnmaskUndoesMask(v, w, rows, later);
    }
    MaskIsFaithfulIff(v, w, rows, later);
  }
}
