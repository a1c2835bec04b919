/** Decoded contract events and the field catalog (src/stellar/events.ts). */
module Events {
  import opened Outcomes
  import Decimal

  type EventId = string
  type Address = string
  type ContractId = string

  /** JSON-safe values. A number that is not an integer is kept as the text it prints to. */
  datatype Json =
    | Null
    | Bool(b: bool)
    | Int(n: int)
    | Frac(text: string)
    | Str(s: string)
    | Arr(items: seq<Json>)
    | Obj(entries: seq<(string, Json)>)

  /** What the XDR decoder hands over: JSON values plus bigints. */
  datatype Native =
    | Plain(j: Json)
    | BigInt(i: int)
    | List(elems: seq<Native>)
    | Record(members: seq<(string, Native)>)

  function PrintInt(i: int): string {
    if i < 0 then "-" + Decimal.Print(-i) else Decimal.Print(i)
  }

  /** `toJsonSafe`: bigints become decimal strings, everything else keeps its shape. */
  function ToJsonSafe(v: Native): Json
    decreases v
  {
    match v
    case Plain(j) => j
    case BigInt(i) => Str(PrintInt(i))
    case List(elems) => Arr(seq(|elems|, i requires 0 <= i < |elems| => ToJsonSafe(elems[i])))
    case Record(ms) => Obj(seq(|ms|, i requires 0 <= i < |ms| => (ms[i].0, ToJsonSafe(ms[i].1))))
  }

  /** EVENT_FIELDS: the names of the positional entries of each published tuple. */
  function FieldNames(symbol: string): Option<seq<string>> {
    match symbol
    case "joined" => Some(["member", "fee"])
    case "exited" => Some(["member", "share"])
    case "claimed" => Some(["member", "pending"])
    case "loan_req" => Some(["id", "borrower", "amount", "total_repayment"])
    case "loan_edit" => Some(["proposal_id", "borrower", "new_amount", "total_repayment"])
    case "loan_vote" => Some(["proposal_id", "voter", "support", "weight"])
    case "loan_wait" => Some(["id", "amount"])
    case "loan_rej" => Some(["id", "for_votes", "against_votes"])
    case "loan_appr" => Some(["id", "borrower", "amount", "due_time"])
    case "loan_rpy" => Some(["loan_id", "borrower", "outstanding"])
    case "loan_dflt" => Some(["loan_id", "borrower", "penalty"])
    case "loan_exp" => Some(["proposal_id", "borrower"])
    case "interest" => Some(["interest", "active"])
    case "tre_prop" => Some(["id", "amount", "destination", "private"])
    case "tre_vote" => Some(["id", "voter", "support", "weight"])
    case "tre_wait" => Some(["id", "amount"])
    case "tre_rej" => Some(["id", "for_votes", "against_votes"])
    case "tre_exec" => Some(["id", "amount", "destination"])
    case "staked" => Some(["member", "amount", "new_stake"])
    case "unstaked" => Some(["member", "amount", "new_stake"])
    case "name_reg" => Some(["name", "owner"])
    case "committed" => Some(["proposal_id", "voter"])
    case "revealed" => Some(["proposal_id", "voter", "support", "weight"])
    case "doc_attn" => Some(["kind", "proposal_id", "caller"])
    case "init" => Some(["admins", "consensus_threshold", "membership_fee", "token"])
    case "admin_add" => Some(["admin"])
    case "admin_rem" => Some(["admin"])
    case "threshold" => Some(["threshold"])
    case "policy" => Some([])
    case "paused" => Some([])
    case "unpaused" => Some([])
    case _ => None
  }

  /** The named view of a data tuple: name number i maps to entry number i, or to null past the end. */
  function NamedUpTo(names: seq<string>, data: seq<Json>, n: nat): map<string, Json>
    requires n <= |names|
  {
    if n == 0 then map[]
    else NamedUpTo(names, data, n - 1)[names[n - 1] := if n - 1 < |data| then data[n - 1] else Null]
  }

  /** Names that every plain object inherits. Looking one up in the catalog finds something that is no list. */
  predicate Inherited(symbol: string) {
    symbol in ["constructor", "toString", "toLocaleString", "valueOf", "hasOwnProperty", "isPrototypeOf",
               "propertyIsEnumerable", "__proto__", "__defineGetter__", "__defineSetter__", "__lookupGetter__",
               "__lookupSetter__"]
  }

  const NOT_A_LIST := "names.forEach is not a function"

  /** A symbol that is not in the catalog has no names, unless it is an inherited one, which throws. */
  function NamedFields(symbol: string, data: seq<Json>): Outcome<map<string, Json>> {
    match FieldNames(symbol)
    case None => if Inherited(symbol) then Err(NOT_A_LIST) else Ok(map[])
    case Some(names) => Ok(NamedUpTo(names, data, |names|))
  }

  /** `namedFields`, filling the record in a loop. */
  method BuildNamedFields(symbol: string, data: seq<Json>) returns (r: Outcome<map<string, Json>>)
    ensures r == NamedFields(symbol, data)
  {
    var fields: map<string, Json> := map[];
    var names := FieldNames(symbol);
    if names.Some? {
      for i := 0 to |names.value|
        invariant fields == NamedUpTo(names.value, data, i)
      {
        fields := fields[names.value[i] := if i < |data| then data[i] else Null];
      }
    } else if Inherited(symbol) {
      return Err(NOT_A_LIST);
    }
    r := Ok(fields);
  }

  /** Every name of the catalog finds the entry at its own position, provided no name occurs twice. */
  lemma {:induction false} NamesFindTheirEntries(names: seq<string>, data: seq<Json>, n: nat, i: nat)
    requires i < n <= |names| && forall j, k :: 0 <= j < k < |names| ==> names[j] != names[k]
    ensures names[i] in NamedUpTo(names, data, n)
    ensures NamedUpTo(names, data, n)[names[i]] == if i < |data| then data[i] else Null
  {
    if i < n - 1 {
      NamesFindTheirEntries(names, data, n - 1, i);
    }
  }

  datatype Event = Event(
    id: EventId,
    ledger: nat,
    closedDay: int,
    contractId: ContractId,
    symbol: string,
    data: seq<Json>,
    fields: map<string, Json>)

  /** One entry of a getEvents response, from the decoded topic symbol and data value on. */
  datatype Raw = Raw(
    id: EventId, ledger: nat, closedDay: int, contractId: ContractId, symbol: string, value: Native)

  /** `decodeEvent`. */
  function Decode(raw: Raw): Outcome<Event> {
    var json := ToJsonSafe(raw.value);
    var data := if json.Arr? then json.items else [json];
    var fields :- NamedFields(raw.symbol, data);
    Ok(Event(raw.id, raw.ledger, raw.closedDay, raw.contractId, raw.symbol, data, fields))
  }

  /** A decoded event has the header of the raw one; its data are the entries of a tuple, or the one value that is none,
      with integers beyond the JSON range as their decimal text. */
  lemma DecodedDataIs(raw: Raw)
    requires Decode(raw).Ok?
    ensures var ev := Decode(raw).value;
            && ev.id == raw.id && ev.ledger == raw.ledger && ev.closedDay == raw.closedDay
            && ev.contractId == raw.contractId && ev.symbol == raw.symbol
            && match raw.value
               case List(elems) =>
                 |ev.data| == |elems| && forall i :: 0 <= i < |elems| ==> ev.data[i] == ToJsonSafe(elems[i])
               case BigInt(n) => ev.data == [Str(if n < 0 then "-" + Decimal.Print(0 - n) else Decimal.Print(n))]
               case Record(_) => |ev.data| == 1 && ev.data[0].Obj?
               case Plain(j) => if j.Arr? then ev.data == j.items else ev.data == [j]
  {
  }

  /** The columns of one `events` row that a rebuild reads back. */
  datatype RawRow = RawRow(
    id: EventId, ledger: nat, closedDay: int, contractId: ContractId, symbol: string, data: Json)

  function ToRow(ev: Event): RawRow {
    RawRow(ev.id, ev.ledger, ev.closedDay, ev.contractId, ev.symbol, Arr(ev.data))
  }

  /** `toDecodedEvent`: rebuild the event from its stored row. */
  function FromRow(row: RawRow): Outcome<Event> {
    var data := if row.data.Arr? then row.data.items else [row.data];
    var fields :- NamedFields(row.symbol, data);
    Ok(Event(row.id, row.ledger, row.closedDay, row.contractId, row.symbol, data, fields))
  }

  /** Replay and rebuild see exactly the event the live decoder saw. */
  lemma StoredRowRebuildsLiveEvent(raw: Raw)
    requires Decode(raw).Ok?
    ensures FromRow(ToRow(Decode(raw).value)) == Decode(raw)
  {
  }

  /** An event is not decoded exactly if its symbol is an inherited name. */
  lemma UndecodableIffInherited(raw: Raw)
    ensures Decode(raw).Err? <==> Inherited(raw.symbol)
  {
    if Inherited(raw.symbol) {
      assert FieldNames(raw.symbol) == None;
    }
  }
}
