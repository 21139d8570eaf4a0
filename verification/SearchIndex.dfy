/** The full-text tables beside the base tables: what the triggers and the rebuild write
    (src/mergemate/infrastructure/persistence/sqlite_schema.py). */
module SearchIndex {
  import opened Wrappers
  import opened RunRepository

  type RowId = nat

  datatype Entry = Entry(id: RowId, text: string)

  /** A base table, its full-text table if that exists, and whether the three triggers do. */
  datatype Table<Row> = Table(rows: map<RowId, Row>, index: Option<seq<Entry>>, triggers: bool)

  datatype Statement<Row> =
    | Insert(id: RowId, row: Row)
    | Update(id: RowId, row: Row)
    | Delete(id: RowId)
    | Initialize(scan: seq<RowId>)  // the order in which a rebuild happens to visit the rows

  /** `INSERT INTO ..._fts SELECT rowid, <search text> FROM ...`. */
  function Rebuilt<Row>(text: Row -> string, rows: map<RowId, Row>, scan: seq<RowId>): seq<Entry>
    requires forall i :: 0 <= i < |scan| ==> scan[i] in rows
  {
    seq(|scan|, i requires 0 <= i < |scan| => Entry(scan[i], text(rows[scan[i]])))
  }

  /** `DELETE FROM ..._fts WHERE rowid = id`. */
  function Without(index: seq<Entry>, id: RowId): seq<Entry> {
    if index == [] then []
    else (if index[0].id == id then [] else [index[0]]) + Without(index[1..], id)
  }

  ghost predicate Legal<Row>(t: Table<Row>, s: Statement<Row>) {
    s.Initialize? ==> forall id :: multiset(s.scan)[id] == if id in t.rows then 1 else 0
  }

  lemma LegalScan<Row>(t: Table<Row>, scan: seq<RowId>)
    requires Legal(t, Statement.Initialize(scan))
    ensures forall i :: 0 <= i < |scan| ==> scan[i] in t.rows
    ensures forall i, j :: 0 <= i < j < |scan| ==> scan[i] != scan[j]
  {
    forall i | 0 <= i < |scan| ensures scan[i] in t.rows {
      assert scan[i] in multiset(scan);
    }
    forall i, j | 0 <= i < j < |scan| ensures scan[i] != scan[j] {
      assert scan == scan[..j] + scan[j..];
      assert scan[..j][i] in multiset(scan[..j]) && scan[j..][0] in multiset(scan[j..]);
      assert multiset(scan) == multiset(scan[..j]) + multiset(scan[j..]);
    }
  }

  /** What a statement leaves behind, triggers included. An INSERT on a taken key is refused; an UPDATE or
      DELETE that matches no row fires nothing. */
  ghost function Apply<Row>(text: Row -> string, t: Table<Row>, s: Statement<Row>): Table<Row>
    requires Legal(t, s)
  {
    match s
    case Insert(id, row) =>
      if id in t.rows then t
      else t.(rows := t.rows[id := row],
              index := if t.triggers && t.index.Some? then Some(t.index.value + [Entry(id, text(row))])
                       else t.index)
    case Update(id, row) =>
      if id !in t.rows then t
      else t.(rows := t.rows[id := row],
              index := if t.triggers && t.index.Some?
                       then Some(Without(t.index.value, id) + [Entry(id, text(row))])
                       else t.index)
    case Delete(id) =>
      if id !in t.rows then t
      else t.(rows := t.rows - {id},
              index := if t.triggers && t.index.Some? then Some(Without(t.index.value, id)) else t.index)
    case Initialize(scan) =>
      LegalScan(t, scan);
      t.(index := if t.index.None? then Some(Rebuilt(text, t.rows, scan)) else t.index, triggers := true)
  }

  // ---------------------------------------------------------------- agreement

  function TextsOf(index: seq<Entry>, id: RowId): seq<string> {
    if index == [] then []
    else (if index[0].id == id then [index[0].text] else []) + TextsOf(index[1..], id)
  }

  /** The full-text table has exactly one entry for every row, holding its search text, and no other. */
  ghost predicate Agrees<Row>(text: Row -> string, t: Table<Row>) {
    && t.index.Some?
    && forall id: RowId :: TextsOf(t.index.value, id) == if id in t.rows then [text(t.rows[id])] else []
  }

  lemma {:induction false} TextsOfAppend(a: seq<Entry>, b: seq<Entry>, id: RowId)
    ensures TextsOf(a + b, id) == TextsOf(a, id) + TextsOf(b, id)
  {
    if a == [] {
      assert a + b == b;
    } else {
      assert (a + b)[0] == a[0] && (a + b)[1..] == a[1..] + b;
      TextsOfAppend(a[1..], b, id);
    }
  }

  lemma {:induction false} TextsOfWithout(index: seq<Entry>, gone: RowId, id: RowId)
    ensures TextsOf(Without(index, gone), id) == if id == gone then [] else TextsOf(index, id)
  {
    if index != [] {
      TextsOfWithout(index[1..], gone, id);
      var rest := Without(index[1..], gone);
      if index[0].id != gone {
        assert Without(index, gone)[0] == index[0] && Without(index, gone)[1..] == rest;
      } else {
        assert Without(index, gone) == rest;
      }
    }
  }

  lemma {:induction false} RebuiltTexts<Row>(text: Row -> string, rows: map<RowId, Row>, scan: seq<RowId>, id: RowId)
    requires forall i :: 0 <= i < |scan| ==> scan[i] in rows
    requires forall i, j :: 0 <= i < j < |scan| ==> scan[i] != scan[j]
    ensures TextsOf(Rebuilt(text, rows, scan), id) == if id in scan then [text(rows[id])] else []
  {
    if scan != [] {
      var rest := scan[1..];
      assert forall i :: 0 <= i < |rest| ==> rest[i] == scan[i + 1];
      RebuiltTexts(text, rows, rest, id);
      assert Rebuilt(text, rows, scan)[1..] == Rebuilt(text, rows, rest);
      assert scan == [scan[0]] + rest;
    }
  }

  lemma RebuildAgrees<Row>(text: Row -> string, t: Table<Row>, scan: seq<RowId>)
    requires Legal(t, Statement.Initialize(scan))
    requires t.index.None?
    ensures Agrees(text, Apply(text, t, Statement.Initialize(scan)))
  {
    LegalScan(t, scan);
    forall id: RowId
      ensures TextsOf(Rebuilt(text, t.rows, scan), id) == if id in t.rows then [text(t.rows[id])] else []
    {
      RebuiltTexts(text, t.rows, scan, id);
      assert id in t.rows ==> id in multiset(scan);
    }
  }

  /** Opening a database leaves its index in agreement exactly when there was none yet or it already
      agreed: an existing full-text table is never rebuilt. */
  lemma InitializeAgreesIff<Row>(text: Row -> string, t: Table<Row>, scan: seq<RowId>)
    requires Legal(t, Statement.Initialize(scan))
    ensures Agrees(text, Apply(text, t, Statement.Initialize(scan))) <==> t.index.None? || Agrees(text, t)
  {
    if t.index.None? {
      RebuildAgrees(text, t, scan);
    }
  }

  /** A deletion followed by an insertion, the triggers of an update. */
  lemma TextsOfReplaced(index: seq<Entry>, key: RowId, entry: Entry, id: RowId)
    requires entry.id == key
    ensures TextsOf(Without(index, key) + [entry], id) == if id == key then [entry.text] else TextsOf(index, id)
  {
    TextsOfWithout(index, key, id);
    TextsOfAppend(Without(index, key), [entry], id);
  }

  lemma InsertKeepsTexts<Row>(text: Row -> string, t: Table<Row>, key: RowId, row: Row, id: RowId)
    requires Agrees(text, t) && key !in t.rows
    ensures TextsOf(t.index.value + [Entry(key, text(row))], id)
            == if id == key then [text(row)] else TextsOf(t.index.value, id)
  {
    TextsOfAppend(t.index.value, [Entry(key, text(row))], id);
    assert TextsOf(t.index.value, key) == [];
  }

  lemma WritesKeepAgreement<Row>(text: Row -> string, t: Table<Row>, s: Statement<Row>, id: RowId)
    requires Legal(t, s) && t.triggers && Agrees(text, t) && !s.Initialize?
    ensures var t' := Apply(text, t, s);
            && t'.index.Some?
            && TextsOf(t'.index.value, id) == if id in t'.rows then [text(t'.rows[id])] else []
  {
    assert TextsOf(t.index.value, id) == if id in t.rows then [text(t.rows[id])] else [];
    match s
    case Insert(key, row) =>
      if key !in t.rows {
        InsertKeepsTexts(text, t, key, row, id);
      }
    case Update(key, row) =>
      TextsOfReplaced(t.index.value, key, Entry(key, text(row)), id);
    case Delete(key) =>
      TextsOfWithout(t.index.value, key, id);
  }

  lemma StatementKeepsAgreement<Row>(text: Row -> string, t: Table<Row>, s: Statement<Row>)
    requires Legal(t, s) && t.triggers && Agrees(text, t)
    ensures Apply(text, t, s).triggers && Agrees(text, Apply(text, t, s))
  {
    if !s.Initialize? {
      forall id: RowId
        ensures var t' := Apply(text, t, s);
                TextsOf(t'.index.value, id) == if id in t'.rows then [text(t'.rows[id])] else []
      {
        WritesKeepAgreement(text, t, s, id);
      }
    }
  }

  // ---------------------------------------------------------------- runs of statements

  ghost predicate LegalRun<Row>(text: Row -> string, t: Table<Row>, statements: seq<Statement<Row>>)
    decreases |statements|
  {
    statements != [] ==>
      Legal(t, statements[0]) && LegalRun(text, Apply(text, t, statements[0]), statements[1..])
  }

  ghost function After<Row>(text: Row -> string, t: Table<Row>, statements: seq<Statement<Row>>): Table<Row>
    requires LegalRun(text, t, statements)
    decreases |statements|
  {
    if statements == [] then t else After(text, Apply(text, t, statements[0]), statements[1..])
  }

  lemma {:induction false} RunKeepsAgreement<Row>(text: Row -> string, t: Table<Row>, statements: seq<Statement<Row>>)
    requires LegalRun(text, t, statements)
    requires t.triggers && Agrees(text, t)
    ensures Agrees(text, After(text, t, statements))
    decreases |statements|
  {
    if statements != [] {
      StatementKeepsAgreement(text, t, statements[0]);
      RunKeepsAgreement(text, Apply(text, t, statements[0]), statements[1..]);
    }
  }

  /** Whatever rows were there before, once the database has been opened every sequence of inserts,
      updates, deletes and further openings leaves the index in agreement with its table. */
  lemma IndexAgreesAfterInitialization<Row>(text: Row -> string, t: Table<Row>, statements: seq<Statement<Row>>)
    requires LegalRun(text, t, statements)
    requires statements != [] && statements[0].Initialize?
    requires t.index.None? || Agrees(text, t)
    ensures Agrees(text, After(text, t, statements))
  {
    InitializeAgreesIff(text, t, statements[0].scan);
    RunKeepsAgreement(text, Apply(text, t, statements[0]), statements[1..]);
  }

  // ---------------------------------------------------------------- searching

  /** `... FROM fts JOIN table ON table.rowid = fts.rowid WHERE fts MATCH ?`: the rows joined, in index order. */
  ghost function Hits<Row>(rows: map<RowId, Row>, index: seq<Entry>, matches: string -> bool): seq<RowId> {
    if index == [] then []
    else (if index[0].id in rows && matches(index[0].text) then [index[0].id] else [])
         + Hits(rows, index[1..], matches)
  }

  ghost function Matching(texts: seq<string>, matches: string -> bool): nat {
    if texts == [] then 0 else (if matches(texts[0]) then 1 else 0) + Matching(texts[1..], matches)
  }

  lemma {:induction false} HitsCount<Row>(rows: map<RowId, Row>, index: seq<Entry>, matches: string -> bool, id: RowId)
    ensures multiset(Hits(rows, index, matches))[id]
            == if id in rows then Matching(TextsOf(index, id), matches) else 0
  {
    if index != [] {
      HitsCount(rows, index[1..], matches, id);
      var head := if index[0].id in rows && matches(index[0].text) then [index[0].id] else [];
      var rest := Hits(rows, index[1..], matches);
      assert multiset(head + rest) == multiset(head) + multiset(rest);
      var texts := TextsOf(index[1..], id);
      if index[0].id == id {
        assert TextsOf(index, id) == [index[0].text] + texts;
        assert ([index[0].text] + texts)[1..] == texts;
      } else {
        assert TextsOf(index, id) == texts;
      }
    }
  }

  /** Any match over an agreeing index returns the rows a scan of the table selects, each once. */
  lemma SearchIsScan<Row>(text: Row -> string, t: Table<Row>, matches: string -> bool, id: RowId)
    requires Agrees(text, t)
    ensures multiset(Hits(t.rows, t.index.value, matches))[id]
            == if id in t.rows && matches(text(t.rows[id])) then 1 else 0
  {
    HitsCount(t.rows, t.index.value, matches, id);
    if id in t.rows {
      var texts := [text(t.rows[id])];
      assert texts[1..] == [];
    }
  }

  // ---------------------------------------------------------------- the text of a run

  datatype StoredRun = StoredRun(id: RunId, run: Run)

  function StatusText(s: Status): string {
    match s
    case AwaitingConfirmation => "awaiting_confirmation"
    case Queued => "queued"
    case Running => "running"
    case WaitingTool => "waiting_tool"
    case Completed => "completed"
    case Failed => "failed"
    case Cancelled => "cancelled"
  }

  /** The columns the search text joins, in order; NULL is None. */
  function SearchColumns(r: StoredRun): seq<Option<string>> {
    [Some(r.id), Some(r.run.origin.agentName), Some(r.run.origin.workflow), r.run.origin.repoName,
     Some(StatusText(r.run.status)), Some(r.run.stage), Some(r.run.prompt), r.run.plan, r.run.design,
     r.run.test, r.run.review, r.run.result, r.run.error]
  }

  function Coalesce(column: Option<string>): string {
    if column.Some? then column.value else ""
  }

  function Joined(columns: seq<Option<string>>): string {
    if columns == [] then ""
    else if |columns| == 1 then Coalesce(columns[0])
    else Coalesce(columns[0]) + " " + Joined(columns[1..])
  }

  function RunSearchText(r: StoredRun): string {
    Joined(SearchColumns(r))
  }

  predicate Between(before: string, after: string) {
    && (before == "" || before[|before| - 1] == ' ')
    && (after == "" || after[0] == ' ')
  }

  lemma Regroup(head: string, before: string, part: string, after: string)
    ensures head + " " + (before + part + after) == (head + " " + before) + part + after
    ensures before == "" || before[|before| - 1] == ' '
            ==> (head + " " + before)[|head + " " + before| - 1] == ' '
  {
    assert head + " " + (before + part + after) == (head + " " + before) + (part + after);
  }

  lemma {:induction false} ColumnStandsIn(columns: seq<Option<string>>, k: nat)
    returns (before: string, after: string)
    requires k < |columns|
    ensures Joined(columns) == before + Coalesce(columns[k]) + after && Between(before, after)
  {
    var head := Coalesce(columns[0]);
    if |columns| == 1 {
      before, after := "", "";
    } else if k == 0 {
      before, after := "", " " + Joined(columns[1..]);
      assert head + " " + Joined(columns[1..]) == head + after;
    } else {
      var inner;
      inner, after := ColumnStandsIn(columns[1..], k - 1);
      before := head + " " + inner;
      Regroup(head, inner, Coalesce(columns[k]), after);
    }
  }

  /** Every column of a run stands whole in its search text, set off by spaces, so a match on a word of any
      of them sees that word. */
  lemma EveryColumnIsSearched(r: StoredRun, k: nat) returns (before: string, after: string)
    requires k < |SearchColumns(r)| && SearchColumns(r)[k].Some?
    ensures RunSearchText(r) == before + SearchColumns(r)[k].value + after && Between(before, after)
  {
    var columns := SearchColumns(r);
    before, after := ColumnStandsIn(columns, k);
  }

  /** So the search text holds the id, agent, workflow, repository, status, stage, prompt, plan, design, tests,
      review, result and error of its run. */
  lemma RunIsSearched(r: StoredRun, part: string) returns (before: string, after: string)
    requires
      || part == r.id || part == r.run.origin.agentName || part == r.run.origin.workflow
      || r.run.origin.repoName == Some(part) || part == StatusText(r.run.status) || part == r.run.stage
      || part == r.run.prompt || r.run.plan == Some(part) || r.run.design == Some(part) || r.run.test == Some(part)
      || r.run.review == Some(part) || r.run.result == Some(part) || r.run.error == Some(part)
    ensures RunSearchText(r) == before + part + after && Between(before, after)
  {
    var columns := SearchColumns(r);
    assert Some(part) in [columns[0], columns[1], columns[2], columns[3], columns[4], columns[5], columns[6],
                          columns[7], columns[8], columns[9], columns[10], columns[11], columns[12]];
    var k :| 0 <= k < |columns| && columns[k] == Some(part);
    before, after := EveryColumnIsSearched(r, k);
  }

  /** The status a column text stands for, as a row is read back. */
  function StatusOf(text: string): Option<Status> {
    match text
    case "awaiting_confirmation" => Some(AwaitingConfirmation)
    case "queued" => Some(Queued)
    case "running" => Some(Running)
    case "waiting_tool" => Some(WaitingTool)
    case "completed" => Some(Completed)
    case "failed" => Some(Failed)
    case "cancelled" => Some(Cancelled)
    case _ => None
  }

  lemma StatusReadsBack(s: Status)
    ensures StatusOf(StatusText(s)) == Some(s)
  {
  }

  // ---------------------------------------------------------------- the tables

  class SearchedTable<Row> {
    const text: Row -> string
    var rows: map<RowId, Row>
    var index: Option<seq<Entry>>
    var triggers: bool

    ghost function Contents(): Table<Row>
      reads this
    {
      Table(rows, index, triggers)
    }

    constructor (text: Row -> string, rows: map<RowId, Row>)
      ensures this.text == text && Contents() == Table(rows, None, false)
    {
      this.text, this.rows, index, triggers := text, rows, None, false;
    }

    method Insert(id: RowId, row: Row) returns (inserted: bool)
      modifies this
      ensures inserted == (id !in old(rows))
      ensures rows == if inserted then old(rows)[id := row] else old(rows)
      ensures Contents() == Apply(text, old(Contents()), Statement.Insert(id, row))
      ensures old(triggers && Agrees(text, Contents())) ==> Agrees(text, Contents())
    {
      ghost var before := Contents();
      inserted := id !in rows;
      if inserted {
        rows := rows[id := row];
        if triggers && index.Some? {
          index := Some(index.value + [Entry(id, text(row))]);
        }
      }
      if before.triggers && Agrees(text, before) {
        StatementKeepsAgreement(text, before, Statement.Insert(id, row));
      }
    }

    method Update(id: RowId, row: Row)
      modifies this
      ensures rows == if id in old(rows) then old(rows)[id := row] else old(rows)
      ensures Contents() == Apply(text, old(Contents()), Statement.Update(id, row))
      ensures old(triggers && Agrees(text, Contents())) ==> Agrees(text, Contents())
    {
      ghost var before := Contents();
      if id in rows {
        rows := rows[id := row];
        if triggers && index.Some? {
          var kept := Remove(index.value, id);
          index := Some(kept + [Entry(id, text(row))]);
        }
      }
      if before.triggers && Agrees(text, before) {
        StatementKeepsAgreement(text, before, Statement.Update(id, row));
      }
    }

    method Delete(id: RowId)
      modifies this
      ensures rows == old(rows) - {id}
      ensures Contents() == Apply(text, old(Contents()), Statement.Delete(id))
      ensures old(triggers && Agrees(text, Contents())) ==> Agrees(text, Contents())
    {
      ghost var before := Contents();
      if id in rows {
        rows := rows - {id};
        if triggers && index.Some? {
          var kept := Remove(index.value, id);
          index := Some(kept);
        }
      }
      if before.triggers && Agrees(text, before) {
        StatementKeepsAgreement(text, before, Statement.Delete(id));
      }
    }

    /** Creates and fills the full-text table only when it is missing, then the triggers. */
    method Initialize(scan: seq<RowId>)
      requires Legal(Contents(), Statement.Initialize(scan))
      modifies this
      ensures rows == old(rows) && triggers && index.Some?
      ensures Contents() == Apply(text, old(Contents()), Statement.Initialize(scan))
      ensures Agrees(text, Contents()) <==> old(index.None? || Agrees(text, Contents()))
    {
      ghost var before := Contents();
      LegalScan(before, scan);
      if index.None? {
        var entries: seq<Entry> := [];
        for k := 0 to |scan|
          invariant entries == Rebuilt(text, rows, scan[..k])
          invariant Contents() == before
        {
          entries := entries + [Entry(scan[k], text(rows[scan[k]]))];
        }
        assert scan[..|scan|] == scan;
        index := Some(entries);
      }
      triggers := true;
      InitializeAgreesIff(text, before, scan);
    }
  }

  method Remove(index: seq<Entry>, id: RowId) returns (kept: seq<Entry>)
    ensures kept == Without(index, id)
  {
    kept := [];
    var k := |index|;
    while k > 0
      invariant 0 <= k <= |index|
      invariant kept == Without(index[k..], id)
    {
      k := k - 1;
      assert index[k..][1..] == index[k + 1..];
      if index[k].id != id {
        kept := [index[k]] + kept;
      }
    }
    assert index[0..] == index;
  }
}
