/** The message registry: every registration takes the next id. */
module Registry {

  const U32_RANGE: nat := 0x1_0000_0000

  /** What the registry stores for a message type, identified by the type. */
  type MessageType = nat

  datatype Entries = Entries(last: nat, table: map<nat, MessageType>)

  const EMPTY: Entries := Entries(0, map[])

  /** The counter is a u32 and wraps around. */
  function Registered(r: Entries, t: MessageType): Entries {
    var id := (r.last + 1) % U32_RANGE;
    Entries(id, r.table[id := t])
  }

  function RegisterAll(types: seq<MessageType>): Entries {
    if types == [] then EMPTY else Registered(RegisterAll(types[..|types| - 1]), types[|types| - 1])
  }

  /** The registry of a client or of a server. */
  class MessagesRegistry {
    var last: nat
    var table: map<nat, MessageType>

    ghost function View(): Entries
      reads this
    {
      Entries(last, table)
    }

    constructor ()
      ensures View() == EMPTY
    {
      last, table := 0, map[];
    }

    /** Repeating it over a list of types leads from EMPTY to RegisterAll of the list. */
    method RegisterMessage(t: MessageType)
      modifies this
      ensures View() == Registered(old(View()), t)
    {
      var newValue := (last + 1) % U32_RANGE;
      last := newValue;
      table := table[newValue := t];
    }
  }

  /** After fewer than 2^32 registrations the ids are exactly 1 to their number, and each still stands for the type
      that was registered under it. */
  lemma {:induction false} IdsAreConsecutive(types: seq<MessageType>)
    requires |types| < U32_RANGE
    ensures var r := RegisterAll(types);
      && r.last == |types|
      && (forall id :: id in r.table <==> 1 <= id <= |types|)
      && (forall id :: 1 <= id <= |types| ==> r.table[id] == types[id - 1])
    decreases |types|
  {
    if types == [] {
    } else {
      IdsAreConsecutive(types[..|types| - 1]);
    }
  }

  /** Both ends agree on every id of the registrations they have in common, whatever either registers later. */
  lemma CommonPrefixAgrees(common: seq<MessageType>, here: seq<MessageType>, there: seq<MessageType>, id: nat)
    requires |common + here| < U32_RANGE && |common + there| < U32_RANGE
    requires id in RegisterAll(common).table
    ensures id in RegisterAll(common + here).table && id in RegisterAll(common + there).table
    ensures RegisterAll(common + here).table[id] == RegisterAll(common + there).table[id]
         == RegisterAll(common).table[id]
  {
    IdsAreConsecutive(common);
    IdsAreConsecutive(common + here);
    IdsAreConsecutive(common + there);
  }

  lemma {:induction false} IdsInUse(types: seq<MessageType>)
    ensures var r := RegisterAll(types);
      && r.last == |types| % U32_RANGE
      && (forall id :: id in r.table <==> (1 <= id <= |types| && id < U32_RANGE) || (id == 0 && |types| >= U32_RANGE))
    decreases |types|
  {
    if types == [] {
    } else {
      IdsInUse(types[..|types| - 1]);
    }
  }

  /** The next registration overwrites an earlier one exactly when the counter has been all the way round. */
  lemma OverwritesIff(types: seq<MessageType>)
    ensures var r := RegisterAll(types); (r.last + 1) % U32_RANGE in r.table <==> |types| >= U32_RANGE
  {
    IdsInUse(types);
  }
}
