/** Per-driver overrides of addon amounts: a table whose rows are never removed, only switched off and on, used
    as a plain map. */
module DriverRates {
  import opened Options

  type AddonId = int
  type DriverId = int

  datatype Key = Key(addon: AddonId, driver: DriverId)

  datatype Rate = Rate(amount: Option<int>, percent: Option<int>, note: Option<string>)

  datatype Row = Row(key: Key, rate: Rate, active: bool)

  type Table = seq<Row>

  /** UNIQUE(team_id, addon_id, driver_id), inactive rows included. */
  ghost predicate UniqueKeys(rows: Table) {
    forall i, j | 0 <= i < j < |rows| :: rows[i].key != rows[j].key
  }

  /** The position of the row with a key, active or not; -1 if there is none. */
  function Find(rows: Table, k: Key): (i: int)
    ensures -1 <= i < |rows|
    ensures i >= 0 ==> rows[i].key == k
    ensures i < 0 ==> forall j | 0 <= j < |rows| :: rows[j].key != k
  {
    if rows == [] then -1
    else if rows[|rows| - 1].key == k then |rows| - 1
    else Find(rows[..|rows| - 1], k)
  }

  lemma FindOnly(rows: Table, k: Key, i: nat)
    requires UniqueKeys(rows) && i < |rows| && rows[i].key == k
    ensures Find(rows, k) == i
  {
  }

  // ----- operations -----

  /** The active row with the key. */
  function Lookup(rows: Table, k: Key): Option<Rate> {
    var i := Find(rows, k);
    if i >= 0 && rows[i].active then Some(rows[i].rate) else None
  }

  /** Revives a switched-off row instead of inserting a second one. */
  function Upsert(rows: Table, k: Key, rate: Rate): Table {
    var i := Find(rows, k);
    if i < 0 then rows + [Row(k, rate, true)] else rows[i := Row(k, rate, true)]
  }

  function Delete(rows: Table, k: Key): Table {
    var i := Find(rows, k);
    if i >= 0 && rows[i].active then rows[i := rows[i].(active := false)] else rows
  }

  /** An upsert never breaks the unique key, and sets the key's rate and no other. */
  lemma UpsertSets(rows: Table, k: Key, rate: Rate)
    requires UniqueKeys(rows)
    ensures UniqueKeys(Upsert(rows, k, rate))
    ensures forall x :: Lookup(Upsert(rows, k, rate), x) == if x == k then Some(rate) else Lookup(rows, x)
  {
    var rows' := Upsert(rows, k, rate);
    forall x
      ensures Lookup(rows', x) == if x == k then Some(rate) else Lookup(rows, x)
    {
      var i := Find(rows, x);
      if x == k {
        FindOnly(rows', k, if i < 0 then |rows| else i);
      } else if i >= 0 {
        FindOnly(rows', x, i);
      } else {
        assert forall j | 0 <= j < |rows'| :: rows'[j].key != x;
      }
    }
  }

  /** A delete removes the key's rate and no other. */
  lemma DeleteRemoves(rows: Table, k: Key)
    requires UniqueKeys(rows)
    ensures UniqueKeys(Delete(rows, k))
    ensures forall x :: Lookup(Delete(rows, k), x) == if x == k then None else Lookup(rows, x)
  {
    var rows' := Delete(rows, k);
    forall x
      ensures Lookup(rows', x) == if x == k then None else Lookup(rows, x)
    {
      var i := Find(rows, x);
      if i >= 0 {
        FindOnly(rows', x, i);
      } else {
        assert forall j | 0 <= j < |rows'| :: rows'[j].key != x;
      }
    }
  }

  // ----- runs -----

  datatype Event = Upserted(key: Key, rate: Rate) | Deleted(key: Key)

  function Step(rows: Table, e: Event): Table {
    match e
    case Upserted(k, rate) => Upsert(rows, k, rate)
    case Deleted(k) => Delete(rows, k)
  }

  /** The table after the events, oldest first. */
  function Run(es: seq<Event>): Table {
    if es == [] then [] else Step(Run(es[..|es| - 1]), es[|es| - 1])
  }

  /** What the last event about the key says: the rate it set, or nothing. */
  function LastSaid(es: seq<Event>, k: Key): Option<Rate> {
    if es == [] then None
    else
      var e := es[|es| - 1];
      if e.key != k then LastSaid(es[..|es| - 1], k)
      else if e.Upserted? then Some(e.rate) else None
  }

  function KeysUpserted(es: seq<Event>): set<Key> {
    set e | e in es && e.Upserted? :: e.key
  }

  /** In every run the table has at most one row per key, counting inactive ones, and a lookup gives the last
      upsert since the last delete, or nothing. */
  lemma {:induction false} TableIsMap(es: seq<Event>, k: Key)
    ensures UniqueKeys(Run(es))
    ensures Lookup(Run(es), k) == LastSaid(es, k)
  {
    if es != [] {
      var front, e := es[..|es| - 1], es[|es| - 1];
      TableIsMap(front, k);
      match e
      case Upserted(x, rate) => UpsertSets(Run(front), x, rate);
      case Deleted(x) => DeleteRemoves(Run(front), x);
    }
  }

  /** The keys of the table, active or not, are exactly those ever upserted. */
  lemma {:induction false} KeysAreUpserted(es: seq<Event>, k: Key)
    ensures Find(Run(es), k) >= 0 <==> k in KeysUpserted(es)
  {
    if es != [] {
      var front, e := es[..|es| - 1], es[|es| - 1];
      KeysAreUpserted(front, k);
      assert es == front + [e];
      StepKeys(Run(front), e, k);
    }
  }

  lemma StepKeys(rows: Table, e: Event, k: Key)
    ensures Find(Step(rows, e), k) >= 0 <==> Find(rows, k) >= 0 || (e.Upserted? && e.key == k)
  {
    var rows' := Step(rows, e);
    if Find(rows, k) >= 0 {
      assert rows'[Find(rows, k)].key == k;
    } else if e.Upserted? && e.key == k {
      assert rows'[|rows|].key == k;
    }
  }

  class DriverRateRepository {
    var rows: Table

    constructor ()
      ensures rows == Run([])
    {
      rows := [];
    }

    method GetDriverRate(k: Key) returns (r: Option<Rate>)
      ensures r == Lookup(rows, k)
    {
      var i := Find(rows, k);
      if i < 0 || !rows[i].active {
        return None;
      }
      return Some(rows[i].rate);
    }

    method UpsertDriverRate(k: Key, rate: Rate)
      modifies this
      ensures rows == Upsert(old(rows), k, rate)
    {
      var i := Find(rows, k);
      if i < 0 {
        rows := rows + [Row(k, rate, true)];
      } else {
        var row := rows[i];
        row := row.(rate := rate);
        row := row.(active := true);
        rows := rows[i := row];
      }
    }

    method DeleteDriverRate(k: Key) returns (deleted: bool)
      modifies this
      ensures rows == Delete(old(rows), k)
      ensures deleted <==> Lookup(old(rows), k).Some?
    {
      var found := GetDriverRate(k);
      if found.None? {
        return false;
      }
      var i := Find(rows, k);
      rows := rows[i := rows[i].(active := false)];
      return true;
    }
  }
}
