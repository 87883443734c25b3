/** The floors kept for all signers: how they are keyed, listed in the state
    file and loaded back, and what the two locked operations do to them. */
module FloorEntries {
  import opened Wrappers
  import opened Text
  import opened Decimals

  datatype Entry = Entry(
    chainId: nat, address: string, nextNonce: nat, txHash: Option<string>, submittedAtMs: nat,
    expiresAtBlock: Option<nat>, expiresAtMs: Option<nat>, relayUrl: Option<string>)

  /** What the map is keyed by. The program writes it as one string, and
      KeyForIsInjective says that nothing is lost by doing so. */
  datatype Key = Key(chainId: nat, address: string)

  type Entries = map<Key, Entry>

  function KeyFor(chainId: nat, address: string): string {
    Digits(chainId) + ":" + Lower(address)
  }

  function KeyOf(chainId: nat, address: string): Key { Key(chainId, Lower(address)) }

  /** Two entries share a key string exactly when they have the same chain and,
      but for case, the same address. */
  lemma KeyForIsInjective(c: nat, a: string, d: nat, b: string)
    ensures KeyFor(c, a) == KeyFor(d, b) <==> KeyOf(c, a) == KeyOf(d, b)
  {
    if KeyFor(c, a) == KeyFor(d, b) {
      DigitsHaveNoColon(Digits(c));
      DigitsHaveNoColon(Digits(d));
      FirstPartIsUnique(Digits(c), Lower(a), Digits(d), Lower(b));
      DigitsAreUnique(c, d);
    }
  }

  lemma DigitsHaveNoColon(s: string)
    requires AreDigits(s)
    ensures NoColon(s)
  {
    assert forall i :: 0 <= i < |s| ==> IsDigit(s[i]);
  }

  function Normalized(e: Entry): Entry { e.(address := Lower(e.address)) }

  function EntryKey(e: Entry): Key { KeyOf(e.chainId, e.address) }

  /** Every entry sits under its own chain and address, which is in lower case. */
  ghost predicate WellKeyed(es: Entries) {
    forall k :: k in es ==> es[k].chainId == k.chainId && es[k].address == k.address == Lower(k.address)
  }

  function Put(es: Entries, e: Entry): Entries { es[EntryKey(e) := Normalized(e)] }

  lemma PutKeepsWellKeyed(es: Entries, e: Entry)
    requires WellKeyed(es)
    ensures WellKeyed(Put(es, e)) && EntryKey(Normalized(e)) == EntryKey(e)
  {
    LowerIsIdempotent(e.address);
  }

  /** Loading a parsed state file: a later entry replaces an earlier one of the
      same key. */
  function Load(listing: seq<Entry>): Entries {
    if listing == [] then map[] else Put(Load(listing[..|listing| - 1]), listing[|listing| - 1])
  }

  lemma {:induction false} LoadIsWellKeyed(listing: seq<Entry>)
    ensures WellKeyed(Load(listing))
  {
    if listing != [] {
      LoadIsWellKeyed(listing[..|listing| - 1]);
      PutKeepsWellKeyed(Load(listing[..|listing| - 1]), listing[|listing| - 1]);
    }
  }

  /** The listing holds the values of the map, in whatever order. */
  predicate Lists(listing: seq<Entry>, es: Entries) {
    && (forall i :: 0 <= i < |listing| ==> EntryKey(listing[i]) in es && es[EntryKey(listing[i])] == listing[i])
    && (forall k :: k in es ==> es[k] in listing)
  }

  /** Saving and loading gives the entries back. */
  lemma LoadsWhatWasSaved(listing: seq<Entry>, es: Entries)
    requires WellKeyed(es) && Lists(listing, es)
    ensures Load(listing) == es
  {
    LoadedSoFar(listing, es, |listing|);
    assert listing[..|listing|] == listing;
    var loaded := Load(listing);
    forall k | k in es ensures k in loaded {
      var i :| 0 <= i < |listing| && listing[i] == es[k];
      assert EntryKey(listing[i]) == k;
    }
  }

  lemma {:induction false} LoadedSoFar(listing: seq<Entry>, es: Entries, n: nat)
    requires WellKeyed(es) && Lists(listing, es) && n <= |listing|
    ensures var loaded := Load(listing[..n]);
            && (forall k :: k in loaded ==> k in es && loaded[k] == es[k])
            && (forall i :: 0 <= i < n ==> EntryKey(listing[i]) in loaded)
  {
    if n > 0 {
      LoadedSoFar(listing, es, n - 1);
      assert listing[..n][..n - 1] == listing[..n - 1];
    }
  }

  // ------------------------------------------------------ the locked operations

  datatype Op = Upsert(entry: Entry) | Clear(chainId: nat, address: string)

  function OpKey(op: Op): Key {
    if op.Upsert? then EntryKey(op.entry) else KeyOf(op.chainId, op.address)
  }

  /** An upsert does nothing when a higher floor stands, a clear when none does. */
  predicate Effective(es: Entries, op: Op) {
    if op.Upsert? then !(OpKey(op) in es && es[OpKey(op)].nextNonce > op.entry.nextNonce)
    else OpKey(op) in es
  }

  function Apply(es: Entries, op: Op): Entries {
    if !Effective(es, op) then es
    else if op.Upsert? then Put(es, op.entry)
    else es - {OpKey(op)}
  }

  lemma ApplyKeepsWellKeyed(es: Entries, op: Op)
    requires WellKeyed(es)
    ensures WellKeyed(Apply(es, op))
  {
    if op.Upsert? {
      PutKeepsWellKeyed(es, op.entry);
    }
  }

  function ApplyAll(es: Entries, ops: seq<Op>): Entries {
    if ops == [] then es else Apply(ApplyAll(es, ops[..|ops| - 1]), ops[|ops| - 1])
  }

  /** The floor kept for a key, 0 when there is none. */
  function FloorOf(es: Entries, k: Key): nat {
    if k in es then es[k].nextNonce else 0
  }

  ghost predicate AllUpserts(ops: seq<Op>) { forall i :: 0 <= i < |ops| ==> ops[i].Upsert? }

  /** No operation from number i on asks for key k with a floor of n or more. */
  ghost predicate AllLower(ops: seq<Op>, i: nat, k: Key, n: nat)
    requires AllUpserts(ops)
  {
    forall j :: i <= j < |ops| && OpKey(ops[j]) == k ==> ops[j].entry.nextNonce < n
  }

  /** Operation i is the last one that asked for key k's highest floor. */
  ghost predicate Decisive(ops: seq<Op>, i: nat, k: Key, e: Entry) {
    && i < |ops| && OpKey(ops[i]) == k && ops[i].Upsert? && e == Normalized(ops[i].entry)
    && AllUpserts(ops) && AllLower(ops, i + 1, k, e.nextNonce)
  }

  /** After upserts alone a key's floor is the highest of what stood before and
      what was asked for it, and its entry is the latest one that asked for that. */
  lemma {:induction false} UpsertsKeepTheMaximum(es: Entries, ops: seq<Op>, k: Key)
    requires AllUpserts(ops)
    ensures var after := ApplyAll(es, ops);
            && (k in es ==> k in after && es[k].nextNonce <= after[k].nextNonce)
            && (forall i :: 0 <= i < |ops| && OpKey(ops[i]) == k ==>
                  k in after && ops[i].entry.nextNonce <= after[k].nextNonce)
            && (k in after ==>
                  || (k in es && after[k] == es[k] && AllLower(ops, 0, k, es[k].nextNonce))
                  || exists i: nat :: Decisive(ops, i, k, after[k]))
  {
    if ops != [] {
      var n := |ops| - 1;
      var front := ops[..n];
      UpsertsKeepTheMaximum(es, front, k);
      var before, after := ApplyAll(es, front), ApplyAll(es, ops);
      if OpKey(ops[n]) == k && Effective(before, ops[n]) {
        assert Decisive(ops, n, k, after[k]);
      } else if k in before && !(k in es && before[k] == es[k] && AllLower(front, 0, k, es[k].nextNonce)) {
        var i: nat :| Decisive(front, i, k, before[k]);
        assert Decisive(ops, i, k, after[k]);
      }
    }
  }

  /** Whatever the order in which the same upserts reach the disk, every key
      ends with the same floor. */
  lemma UpsertOrderDoesNotMatter(es: Entries, ops: seq<Op>, others: seq<Op>, k: Key)
    requires AllUpserts(ops) && multiset(ops) == multiset(others)
    ensures FloorOf(ApplyAll(es, ops), k) == FloorOf(ApplyAll(es, others), k)
    ensures k in ApplyAll(es, ops) <==> k in ApplyAll(es, others)
  {
    SomeUpsertsAskNoMore(es, ops, others, k);
    SomeUpsertsAskNoMore(es, others, ops, k);
  }

  lemma SomeUpsertsAskNoMore(es: Entries, ops: seq<Op>, others: seq<Op>, k: Key)
    requires AllUpserts(ops) && multiset(ops) == multiset(others)
    ensures AllUpserts(others)
    ensures FloorOf(ApplyAll(es, ops), k) <= FloorOf(ApplyAll(es, others), k)
    ensures k in ApplyAll(es, ops) ==> k in ApplyAll(es, others)
  {
    SameMembers(others, ops);
    UpsertsKeepTheMaximum(es, ops, k);
    UpsertsKeepTheMaximum(es, others, k);
    var after := ApplyAll(es, ops);
    if k in after && !(k in es && after[k] == es[k]) {
      var i: nat :| Decisive(ops, i, k, after[k]);
      SameMembers(ops, others);
    }
  }

  lemma SameMembers(ops: seq<Op>, others: seq<Op>)
    requires multiset(ops) == multiset(others)
    ensures forall i :: 0 <= i < |ops| ==> exists j :: 0 <= j < |others| && others[j] == ops[i]
  {
    forall i | 0 <= i < |ops| ensures exists j :: 0 <= j < |others| && others[j] == ops[i] {
      assert ops[i] in multiset(ops);
      assert ops[i] in multiset(others);
    }
  }
}
