/** The seed script: upserts four status names and then four category names,
    one at a time, each upsert creating the row when no row has that name and
    leaving an existing row as it is (its update part is empty). */
module Seed {
  import opened Store

  const StatusNames: seq<string> := ["Идея", "Запланировано", "В работе", "Выполнено"]
  const CategoryNames: seq<string> := ["Функциональность", "Баг", "UI", "Производительность"]

  /** `upsert({ where: { name }, update: {}, create: { name } })`. */
  function Upsert(t: NameTable, name: string): (r: NameTable)
    ensures name in r.rows.Values
    ensures name in t.rows.Values ==> r == t
  {
    if name in t.rows.Values then t
    else
      var rows := t.rows[t.next := name];
      assert rows[t.next] == name;
      NameTable(rows, t.next + 1)
  }

  /** The table after upserting `names` in order. */
  function UpsertAll(t: NameTable, names: seq<string>): (r: NameTable)
    ensures t.next <= r.next <= t.next + |names|
  {
    if names == [] then t else Upsert(UpsertAll(t, names[..|names| - 1]), names[|names| - 1])
  }

  lemma UpsertKeepsValid(t: NameTable, name: string)
    requires TableValid(t)
    ensures TableValid(Upsert(t, name))
  {
  }

  /** An upsert keeps every existing row, unchanged, under its id. */
  lemma UpsertKeepsRows(t: NameTable, name: string)
    requires TableValid(t)
    ensures forall id :: id in t.rows ==> id in Upsert(t, name).rows && Upsert(t, name).rows[id] == t.rows[id]
  {
  }

  /** A sequence of upserts keeps the table valid, keeps every old row
      unchanged, and leaves every listed name present; every row it adds
      carries a listed name. */
  lemma {:induction false} UpsertAllFacts(t: NameTable, names: seq<string>)
    requires TableValid(t)
    ensures TableValid(UpsertAll(t, names))
    ensures forall id :: id in t.rows ==> id in UpsertAll(t, names).rows && UpsertAll(t, names).rows[id] == t.rows[id]
    ensures forall n :: n in names ==> n in UpsertAll(t, names).rows.Values
    ensures forall id :: id in UpsertAll(t, names).rows && id !in t.rows ==> UpsertAll(t, names).rows[id] in names
  {
    if names != [] {
      var init, last := names[..|names| - 1], names[|names| - 1];
      UpsertAllFacts(t, init);
      var mid := UpsertAll(t, init);
      UpsertKeepsValid(mid, last);
      UpsertKeepsRows(mid, last);
      assert names == init + [last];
      forall n | n in names ensures n in UpsertAll(t, names).rows.Values {
        if n != last {
          assert n in init;
          var id :| id in mid.rows && mid.rows[id] == n;
          assert UpsertAll(t, names).rows[id] == n;
        }
      }
    }
  }

  /** Upserting names that are all present already changes nothing. */
  lemma {:induction false} UpsertAllPresent(t: NameTable, names: seq<string>)
    requires forall n :: n in names ==> n in t.rows.Values
    ensures UpsertAll(t, names) == t
  {
    if names != [] {
      var init := names[..|names| - 1];
      assert forall n :: n in init ==> n in names;
      UpsertAllPresent(t, init);
    }
  }

  /** Running the upserts a second time gives the same table as running them once. */
  lemma UpsertAllIdempotent(t: NameTable, names: seq<string>)
    requires TableValid(t)
    ensures UpsertAll(UpsertAll(t, names), names) == UpsertAll(t, names)
  {
    UpsertAllFacts(t, names);
    UpsertAllPresent(UpsertAll(t, names), names);
  }

  /** `main`: the status loop, then the category loop. */
  method RunSeed(db: Db)
    requires db.Valid()
    modifies db
    ensures db.Valid()
    ensures db.statuses == UpsertAll(old(db.statuses), StatusNames)
    ensures db.categories == UpsertAll(old(db.categories), CategoryNames)
    ensures db.Tables() == old(db.Tables()).(statuses := db.statuses, categories := db.categories)
  {
    UpsertAllFacts(db.statuses, StatusNames);
    UpsertAllFacts(db.categories, CategoryNames);
    for i := 0 to |StatusNames|
      invariant db.statuses == UpsertAll(old(db.statuses), StatusNames[..i])
      invariant db.Tables() == old(db.Tables()).(statuses := db.statuses)
    {
      assert StatusNames[..i + 1][..i] == StatusNames[..i];
      db.statuses := Upsert(db.statuses, StatusNames[i]);
    }
    assert StatusNames[..|StatusNames|] == StatusNames;
    for i := 0 to |CategoryNames|
      invariant db.categories == UpsertAll(old(db.categories), CategoryNames[..i])
      invariant db.statuses == UpsertAll(old(db.statuses), StatusNames)
      invariant db.Tables() == old(db.Tables()).(statuses := db.statuses, categories := db.categories)
    {
      assert CategoryNames[..i + 1][..i] == CategoryNames[..i];
      db.categories := Upsert(db.categories, CategoryNames[i]);
    }
    assert CategoryNames[..|CategoryNames|] == CategoryNames;
  }

  /** After the seed every listed status and category name has a row, the
      rows that were there keep their ids and names, and seeding again
      changes nothing. */
  lemma SeedOutcome(s: Snapshot)
    requires SnapshotValid(s)
    ensures forall n :: n in StatusNames ==> n in UpsertAll(s.statuses, StatusNames).rows.Values
    ensures forall n :: n in CategoryNames ==> n in UpsertAll(s.categories, CategoryNames).rows.Values
    ensures forall id :: id in s.statuses.rows ==>
              id in UpsertAll(s.statuses, StatusNames).rows
              && UpsertAll(s.statuses, StatusNames).rows[id] == s.statuses.rows[id]
    ensures forall id :: id in s.categories.rows ==>
              id in UpsertAll(s.categories, CategoryNames).rows
              && UpsertAll(s.categories, CategoryNames).rows[id] == s.categories.rows[id]
    ensures UpsertAll(UpsertAll(s.statuses, StatusNames), StatusNames) == UpsertAll(s.statuses, StatusNames)
    ensures UpsertAll(UpsertAll(s.categories, CategoryNames), CategoryNames) == UpsertAll(s.categories, CategoryNames)
  {
    UpsertAllFacts(s.statuses, StatusNames);
    UpsertAllFacts(s.categories, CategoryNames);
    UpsertAllIdempotent(s.statuses, StatusNames);
    UpsertAllIdempotent(s.categories, CategoryNames);
  }
}
