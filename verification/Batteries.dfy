/** Normalising the battery configuration (internal/litime/battery.go). */
module Batteries {
  import opened Prelude
  import opened Text
  import opened Sorting
  import opened Bluetooth

  datatype MatchKind = MatchAddress | MatchName

  datatype Battery = Battery(id: string, kind: MatchKind, value: string)

  datatype ConfigError =
    | NothingConfigured
    | EmptyID
    | NoTarget(id: string)
    | SharedTarget(previous: string, id: string, target: string)

  function IDOf(b: Battery): string { b.id }

  function Classify(value: string, parse: AddressParser): MatchKind {
    if parse(value).Some? then MatchAddress else MatchName
  }

  /** The battery one configuration entry describes. */
  function Entry(entries: map<string, string>, parse: AddressParser, rawID: string): Battery
    requires rawID in entries
  {
    var value := TrimSpace(entries[rawID]);
    Battery(TrimSpace(rawID), Classify(value, parse), value)
  }

  function Entries(entries: map<string, string>, parse: AddressParser, ids: set<string>): set<Battery>
    requires ids <= entries.Keys
  {
    set id | id in ids :: Entry(entries, parse, id)
  }

  ghost predicate NonEmpty(entries: map<string, string>, ids: set<string>)
    requires ids <= entries.Keys
  {
    forall id | id in ids :: TrimSpace(id) != "" && TrimSpace(entries[id]) != ""
  }

  ghost predicate DistinctTargets(entries: map<string, string>, ids: set<string>)
    requires ids <= entries.Keys
  {
    forall i, j {:trigger TrimSpace(entries[i]), TrimSpace(entries[j])} |
      i in ids && j in ids && TrimSpace(entries[i]) == TrimSpace(entries[j]) :: i == j
  }

  /** Exactly the configurations that are accepted. Nothing is asked of the
      identifiers beyond not being blank: two of them may trim to the same text. */
  ghost predicate Acceptable(entries: map<string, string>) {
    NonEmpty(entries, entries.Keys) && DistinctTargets(entries, entries.Keys)
  }

  ghost predicate DistinctTrimmedIDs(entries: map<string, string>) {
    forall i, j {:trigger TrimSpace(i), TrimSpace(j)} |
      i in entries && j in entries && TrimSpace(i) == TrimSpace(j) :: i == j
  }

  /** The error names a fault that is really in the configuration. */
  ghost predicate Blames(entries: map<string, string>, e: ConfigError) {
    match e
    case NothingConfigured => entries == map[]
    case EmptyID => exists id | id in entries :: TrimSpace(id) == ""
    case NoTarget(id) => exists raw | raw in entries :: TrimSpace(raw) == id && TrimSpace(entries[raw]) == ""
    case SharedTarget(previous, id, target) =>
      exists i, j | i in entries && j in entries && i != j ::
        && TrimSpace(i) == previous && TrimSpace(j) == id
        && TrimSpace(entries[i]) == target && TrimSpace(entries[j]) == target
  }

  /** An acceptable configuration gives its entries, once each and in ID order;
      any other gives an error that names a real fault. */
  ghost predicate Parsed(entries: map<string, string>, parse: AddressParser, r: Result<seq<Battery>, ConfigError>) {
    match r
    case Ok(batteries) =>
      && Acceptable(entries)
      && IsListing(batteries, Entries(entries, parse, entries.Keys), IDOf)
    case Err(e) => !Acceptable(entries) && Blames(entries, e)
  }

  /** The remaining entries are taken in an arbitrary order, as a Go map yields
      them, so what is ensured holds for every iteration order. */
  method ParseBatteries(entries: map<string, string>, fallbackName: string, parse: AddressParser)
    returns (r: Result<seq<Battery>, ConfigError>)
    ensures entries == map[] ==>
              r == if fallbackName == "" then Err(NothingConfigured)
                   else Ok([Battery(fallbackName, MatchName, fallbackName)])
    ensures entries != map[] ==> Parsed(entries, parse, r)
  {
    if entries == map[] {
      if fallbackName == "" {
        return Err(NothingConfigured);
      }
      return Ok([Battery(fallbackName, MatchName, fallbackName)]);
    }

    var batteries: seq<Battery> := [];
    var seen: map<string, string> := map[];
    var remaining := entries.Keys;
    ghost var done: set<string> := {};
    ghost var owner: map<string, string> := map[];
    while remaining != {}
      invariant remaining == entries.Keys - done
      invariant HaveRead(entries, parse, done, owner, seen, batteries)
    {
      var rawID :| rawID in remaining;
      var id := TrimSpace(rawID);
      var value := TrimSpace(entries[rawID]);

      if id == "" {
        return Err(EmptyID);
      }
      if value == "" {
        return Err(NoTarget(id));
      }

      var kind := MatchName;
      if parse(value).Some? {
        kind := MatchAddress;
      }

      if value in seen {
        DuplicateTarget(entries, done, owner, seen, rawID);
        return Err(SharedTarget(seen[value], id, value));
      }
      ReadOneMore(entries, parse, done, owner, seen, batteries, rawID);
      assert Entry(entries, parse, rawID) == Battery(id, kind, value);
      seen := seen[value := id];
      owner := owner[value := rawID];

      batteries := batteries + [Battery(id, kind, value)];
      remaining := remaining - {rawID};
      done := done + {rawID};
    }

    assert done == entries.Keys;
    AllRead(entries, parse, owner, seen, batteries);
    return Ok(Sort(batteries, IDOf));
  }

  /** `seen` holds the targets of the entries in `done`; `owner` remembers which
      entry put each of them there. */
  ghost predicate Indexed(entries: map<string, string>, done: set<string>,
                          owner: map<string, string>, seen: map<string, string>)
  {
    && done <= entries.Keys
    && owner.Keys == seen.Keys
    && (forall v | v in owner ::
          owner[v] in done && TrimSpace(entries[owner[v]]) == v && TrimSpace(owner[v]) == seen[v])
    && (forall id | id in done :: TrimSpace(entries[id]) in seen && owner[TrimSpace(entries[id])] == id)
  }

  /** The loop's state after the entries in `done`. */
  ghost predicate HaveRead(entries: map<string, string>, parse: AddressParser, done: set<string>,
                           owner: map<string, string>, seen: map<string, string>, batteries: seq<Battery>)
  {
    && Indexed(entries, done, owner, seen)
    && NonEmpty(entries, done)
    && multiset(batteries) == multiset(Entries(entries, parse, done))
  }

  lemma DuplicateTarget(entries: map<string, string>, done: set<string>,
                        owner: map<string, string>, seen: map<string, string>, id: string)
    requires Indexed(entries, done, owner, seen)
    requires id in entries && id !in done && TrimSpace(entries[id]) in seen
    ensures Blames(entries, SharedTarget(seen[TrimSpace(entries[id])], TrimSpace(id), TrimSpace(entries[id])))
    ensures !Acceptable(entries)
  {
    assert owner[TrimSpace(entries[id])] in entries;
  }

  lemma ReadOneMore(entries: map<string, string>, parse: AddressParser, done: set<string>,
                    owner: map<string, string>, seen: map<string, string>, batteries: seq<Battery>, id: string)
    requires HaveRead(entries, parse, done, owner, seen, batteries)
    requires id in entries && id !in done && TrimSpace(entries[id]) !in seen
    requires TrimSpace(id) != "" && TrimSpace(entries[id]) != ""
    ensures HaveRead(entries, parse, done + {id}, owner[TrimSpace(entries[id]) := id],
                     seen[TrimSpace(entries[id]) := TrimSpace(id)], batteries + [Entry(entries, parse, id)])
  {
    AddEntry(entries, parse, done, id);
    IndexOneMore(entries, done, owner, seen, id);
  }

  lemma IndexOneMore(entries: map<string, string>, done: set<string>,
                     owner: map<string, string>, seen: map<string, string>, id: string)
    requires Indexed(entries, done, owner, seen)
    requires id in entries && TrimSpace(entries[id]) !in seen
    ensures Indexed(entries, done + {id}, owner[TrimSpace(entries[id]) := id],
                    seen[TrimSpace(entries[id]) := TrimSpace(id)])
  {
  }

  lemma AllRead(entries: map<string, string>, parse: AddressParser, owner: map<string, string>,
                seen: map<string, string>, batteries: seq<Battery>)
    requires HaveRead(entries, parse, entries.Keys, owner, seen, batteries)
    ensures Parsed(entries, parse, Ok(Sort(batteries, IDOf)))
  {
  }

  /** An entry with a new target adds one battery that was not there before. */
  lemma AddEntry(entries: map<string, string>, parse: AddressParser, ids: set<string>, id: string)
    requires ids <= entries.Keys && id in entries && id !in ids
    requires forall i | i in ids :: TrimSpace(entries[i]) != TrimSpace(entries[id])
    ensures multiset(Entries(entries, parse, ids + {id})) ==
            multiset(Entries(entries, parse, ids)) + multiset{Entry(entries, parse, id)}
  {
    var e := Entry(entries, parse, id);
    assert Entries(entries, parse, ids + {id}) == Entries(entries, parse, ids) + {e};
    assert e !in Entries(entries, parse, ids);
  }

  /** There is one battery for every entry. */
  lemma {:induction false} OneBatteryPerEntry(entries: map<string, string>, parse: AddressParser, ids: set<string>)
    requires ids <= entries.Keys && DistinctTargets(entries, ids)
    ensures |Entries(entries, parse, ids)| == |ids|
  {
    if ids != {} {
      var id :| id in ids;
      var rest := ids - {id};
      OneBatteryPerEntry(entries, parse, rest);
      assert Entries(entries, parse, ids) == Entries(entries, parse, rest) + {Entry(entries, parse, id)};
      assert Entry(entries, parse, id) !in Entries(entries, parse, rest);
    }
  }

  /** Accepted configurations have one possible result, whatever the iteration
      order and however sort.Slice treats equal keys, exactly when no two
      identifiers trim to the same text. */
  lemma ResultUniqueIff(entries: map<string, string>, parse: AddressParser)
    requires Acceptable(entries)
    ensures DistinctTrimmedIDs(entries) <==>
            forall a, b |
              IsListing(a, Entries(entries, parse, entries.Keys), IDOf) &&
              IsListing(b, Entries(entries, parse, entries.Keys), IDOf) :: a == b
  {
    var all := Entries(entries, parse, entries.Keys);
    ListingUniqueIff(all, IDOf);
    if DistinctKeys(all, IDOf) {
      forall i, j | i in entries && j in entries && TrimSpace(i) == TrimSpace(j) ensures i == j {
        assert Entry(entries, parse, i) in all && Entry(entries, parse, j) in all;
        assert IDOf(Entry(entries, parse, i)) == IDOf(Entry(entries, parse, j));
      }
    }
    if DistinctTrimmedIDs(entries) {
      assert DistinctKeys(all, IDOf);
    }
  }

  /** Nothing is asked of identifiers that trim to the same text: two batteries then
      carry one ID. */
  lemma DoublesAreAccepted(padded: string, first: string, second: string, parse: AddressParser)
    requires !IsTrimmed(padded) && TrimSpace(padded) != ""
    requires IsTrimmed(first) && IsTrimmed(second) && first != second && first != "" && second != ""
    ensures var id := TrimSpace(padded);
            var entries := map[id := first, padded := second];
            && Acceptable(entries)
            && Entry(entries, parse, id).id == Entry(entries, parse, padded).id == id
            && Entry(entries, parse, id) != Entry(entries, parse, padded)
  {
    TrimIdempotent(padded);
    TrimmedIsFixed(first);
    TrimmedIsFixed(second);
  }

  /** The batteries of a parsed list have pairwise different targets. */
  ghost predicate DistinctValues(batteries: seq<Battery>) {
    forall i, j | 0 <= i < j < |batteries| :: batteries[i].value != batteries[j].value
  }

  /** Every entry is in the list, and nothing else is. */
  lemma ListedAre(entries: map<string, string>, parse: AddressParser, batteries: seq<Battery>)
    requires entries != map[] && Parsed(entries, parse, Ok(batteries))
    ensures forall id | id in entries :: Entry(entries, parse, id) in batteries
    ensures forall b | b in batteries :: exists id | id in entries :: b == Entry(entries, parse, id)
  {
    var all := Entries(entries, parse, entries.Keys);
    forall id | id in entries ensures Entry(entries, parse, id) in batteries {
      assert Entry(entries, parse, id) in multiset(all) && Entry(entries, parse, id) in multiset(batteries);
    }
    forall b | b in batteries ensures exists id | id in entries :: b == Entry(entries, parse, id) {
      assert b in multiset(batteries) && b in multiset(all);
    }
  }

  lemma ParsedValuesDistinct(entries: map<string, string>, parse: AddressParser, batteries: seq<Battery>)
    requires entries != map[] && Parsed(entries, parse, Ok(batteries))
    ensures DistinctValues(batteries)
  {
    ListedAre(entries, parse, batteries);
    forall i, j | 0 <= i < j < |batteries| ensures batteries[i].value != batteries[j].value {
      assert batteries[i] in batteries && batteries[j] in batteries;
      var p :| p in entries && batteries[i] == Entry(entries, parse, p);
      var q :| q in entries && batteries[j] == Entry(entries, parse, q);
      if batteries[i] == batteries[j] {
        CountedTwice(batteries, i, j);
      }
    }
  }
}
