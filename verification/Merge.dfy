/** Merging an extracted delta into the previous summary (`merge_summary_v2`). */
module Merge {
  import opened Schema
  import opened Shrink

  datatype Delta = Delta(
    items: map<Field, seq<Item>>, resolved: set<string>, superseded: set<string>, narrative: string) {
    function Get(f: Field): seq<Item> {
      if f in items then items[f] else []
    }
  }

  /** `stable_item_id`, as a function of the kind and the payload. */
  type IdOf = (string, seq<string>) -> string

  function KindName(f: Field): string {
    match f
    case Facts => "facts" case Decisions => "decisions" case Constraints => "constraints"
    case Preferences => "preferences" case Entities => "entities" case Skills => "skills"
    case Resources => "resources" case ToolState => "tool_state" case CompletedItems => "completed_items"
    case OpenItems => "open_items" case Failures => "failures" case ConversationNotes => "conversation_notes"
  }

  /** `_item_payload`, as the names and texts of its entries. */
  function Payload(i: Item): seq<string> {
    match i.part
    case OfFact(f) =>
      if f.company != "" || f.period != "" || f.metric != "" then ["company", f.company, f.period, f.metric]
      else ["note", if f.note != "" then f.note else i.content, f.evidenceId]
    case Plain => if i.key != "" then ["key", i.key] else ["content", i.content]
  }

  /** `_stamp_item`. */
  function Stamped(i: Item, f: Field, turn: int, idOf: IdOf): Item {
    i.(createdTurn := if i.createdTurn != 0 then i.createdTurn else turn,
       updatedTurn := if i.updatedTurn != 0 then i.updatedTurn else turn,
       id := if Strip(i.id) == "" then idOf(KindName(f), Payload(i)) else i.id)
  }

  /** An item takes the place of the one with its id, or goes to the end. */
  function Put(merged: seq<Item>, i: Item): seq<Item> {
    if merged == [] then [i]
    else if merged[0].id == i.id then [i] + merged[1..]
    else [merged[0]] + Put(merged[1..], i)
  }

  function PutAll(items: seq<Item>, f: Field, turn: int, removed: set<string>, idOf: IdOf): seq<Item> {
    if items == [] then []
    else
      var rest := PutAll(items[..|items| - 1], f, turn, removed, idOf);
      var i := Stamped(items[|items| - 1], f, turn, idOf);
      if i.id in removed then rest else Put(rest, i)
  }

  ghost predicate UniqueList(items: seq<Item>) {
    forall a, b | 0 <= a < b < |items| :: items[a].id != items[b].id
  }

  lemma {:induction false} PutUnique(merged: seq<Item>, i: Item)
    requires UniqueList(merged)
    ensures UniqueList(Put(merged, i))
    ensures forall x :: x in Put(merged, i) <==> x == i || (x in merged && x.id != i.id)
  {
    if merged != [] {
      assert merged == [merged[0]] + merged[1..];
      if merged[0].id != i.id {
        PutUnique(merged[1..], i);
      } else {
        forall x | x in merged[1..]
          ensures x.id != i.id
        {
        }
      }
    }
  }

  /** After an upsert every id occurs once and no removed id is left. */
  lemma {:induction false} UpsertUnique(items: seq<Item>, f: Field, turn: int, removed: set<string>, idOf: IdOf)
    ensures UniqueList(PutAll(items, f, turn, removed, idOf))
    ensures forall x | x in PutAll(items, f, turn, removed, idOf) :: x.id !in removed
  {
    if items != [] {
      UpsertUnique(items[..|items| - 1], f, turn, removed, idOf);
      PutUnique(PutAll(items[..|items| - 1], f, turn, removed, idOf), Stamped(items[|items| - 1], f, turn, idOf));
    }
  }

  /** The last item given for an id is the one kept. */
  lemma {:induction false} UpsertLastWins(items: seq<Item>, k: nat, f: Field, turn: int, removed: set<string>, idOf: IdOf)
    requires k < |items| && Stamped(items[k], f, turn, idOf).id !in removed
    requires forall j | k < j < |items| :: Stamped(items[j], f, turn, idOf).id != Stamped(items[k], f, turn, idOf).id
    ensures Stamped(items[k], f, turn, idOf) in PutAll(items, f, turn, removed, idOf)
  {
    var front := items[..|items| - 1];
    UpsertUnique(front, f, turn, removed, idOf);
    PutUnique(PutAll(front, f, turn, removed, idOf), Stamped(items[|items| - 1], f, turn, idOf));
    if k < |items| - 1 {
      UpsertLastWins(front, k, f, turn, removed, idOf);
    }
  }

  /** `order` lists the keys of `merged`, each once, and `list` the items in that order. */
  ghost predicate Indexed(order: seq<string>, merged: map<string, Item>, list: seq<Item>) {
    Rows(order, merged, list) && UniqueList(list) && forall id | id in merged :: id in order
  }

  ghost predicate Rows(order: seq<string>, merged: map<string, Item>, list: seq<Item>) {
    && |list| == |order|
    && forall a | 0 <= a < |order| :: order[a] in merged && merged[order[a]] == list[a] && list[a].id == order[a]
  }

  lemma RowsOld(order: seq<string>, merged: map<string, Item>, list: seq<Item>, a: nat, i: Item)
    requires Rows(order, merged, list) && UniqueList(list) && a < |list| && list[a].id == i.id
    ensures Rows(order, merged[i.id := i], list[a := i])
  {
    forall b | 0 <= b < |order| && b != a
      ensures order[b] != i.id
    {
      assert list[b].id != list[a].id;
    }
  }

  lemma EnteredNew(order: seq<string>, merged: map<string, Item>, list: seq<Item>, i: Item)
    requires Indexed(order, merged, list) && i.id !in merged
    ensures Indexed(order + [i.id], merged[i.id := i], Put(list, i))
  {
    PutNew(list, i);
  }

  lemma EnteredOld(order: seq<string>, merged: map<string, Item>, list: seq<Item>, i: Item)
    requires Indexed(order, merged, list) && i.id in merged
    ensures Indexed(order, merged[i.id := i], Put(list, i))
  {
    var a :| 0 <= a < |order| && order[a] == i.id;
    PutOld(list, a, i);
    PutUnique(list, i);
    RowsOld(order, merged, list, a, i);
  }

  lemma Entered(order: seq<string>, merged: map<string, Item>, all: seq<Item>, n: nat,
                f: Field, turn: int, removed: set<string>, idOf: IdOf)
    requires n < |all| && Indexed(order, merged, PutAll(all[..n], f, turn, removed, idOf))
    ensures var i := Stamped(all[n], f, turn, idOf);
      if i.id in removed then Indexed(order, merged, PutAll(all[..n + 1], f, turn, removed, idOf))
      else Indexed(if i.id in merged then order else order + [i.id], merged[i.id := i],
                   PutAll(all[..n + 1], f, turn, removed, idOf))
  {
    assert all[..n + 1][..n] == all[..n];
    var i := Stamped(all[n], f, turn, idOf);
    var list := PutAll(all[..n], f, turn, removed, idOf);
    if i.id in merged { EnteredOld(order, merged, list, i); } else { EnteredNew(order, merged, list, i); }
  }

  /** `_upsert_items`: a dictionary by id and the order of first appearance. */
  method UpsertItems(before: seq<Item>, added: seq<Item>, f: Field, turn: int, removed: set<string>, idOf: IdOf)
    returns (result: seq<Item>)
    ensures result == PutAll(before + added, f, turn, removed, idOf)
  {
    var all := before + added;
    var merged: map<string, Item> := map[];
    var order: seq<string> := [];
    for n := 0 to |all|
      invariant Indexed(order, merged, PutAll(all[..n], f, turn, removed, idOf))
    {
      Entered(order, merged, all, n, f, turn, removed, idOf);
      var i := Stamped(all[n], f, turn, idOf);
      if i.id !in removed {
        if i.id !in merged {
          order := order + [i.id];
        }
        merged := merged[i.id := i];
      }
    }
    assert all[..|all|] == all;
    result := InOrder(order, merged, PutAll(all, f, turn, removed, idOf));
  }

  method InOrder(order: seq<string>, merged: map<string, Item>, ghost list: seq<Item>) returns (result: seq<Item>)
    requires Indexed(order, merged, list)
    ensures result == list
  {
    result := [];
    for a := 0 to |order|
      invariant result == list[..a]
    {
      result := result + [merged[order[a]]];
    }
  }

  lemma {:induction false} PutNew(merged: seq<Item>, i: Item)
    requires forall a | 0 <= a < |merged| :: merged[a].id != i.id
    ensures Put(merged, i) == merged + [i]
  {
    if merged != [] { PutNew(merged[1..], i); }
  }

  lemma {:induction false} PutOld(merged: seq<Item>, a: nat, i: Item)
    requires a < |merged| && merged[a].id == i.id
    requires forall b | 0 <= b < a :: merged[b].id != i.id
    ensures Put(merged, i) == merged[a := i]
  {
    if a > 0 { PutOld(merged[1..], a - 1, i); }
  }

  // ------------------------------------------------------------ the merge

  /** `clip_narrative`. */
  function Clip(text: string, maxChars: int): string {
    var value := Strip(text);
    if maxChars <= 0 || |value| <= maxChars then value else RStrip(value[..maxChars])
  }

  function Narrative(before: string, delta: string, maxChars: int): string {
    Clip(Join(NonEmpty([Strip(before), Strip(delta)]), " "), maxChars)
  }

  function TodoItem(row: Todo, turn: int, idOf: IdOf): Item {
    var content := Strip(row.content);
    Item(idOf("todo", [content]), content, turn, turn,
         if row.status == "completed" then Done else Active,
         if row.status == "in_progress" then High else Normal, Absent, Absent, "", Plain)
  }

  predicate IsOpen(row: Todo) {
    row.status == "pending" || row.status == "in_progress"
  }

  /** The todo rows that are open (`open`) or completed, as items. */
  function FromTodos(todos: seq<Todo>, open: bool, turn: int, idOf: IdOf): seq<Item> {
    if todos == [] then []
    else
      var row := todos[|todos| - 1];
      FromTodos(todos[..|todos| - 1], open, turn, idOf)
      + if Strip(row.content) != "" && (if open then IsOpen(row) else row.status == "completed")
        then [TodoItem(row, turn, idOf)] else []
  }

  function ContentsOf(items: seq<Item>): set<string> {
    set i | i in items :: i.content
  }

  function Unknown(items: seq<Item>, known: set<string>): seq<Item> {
    if items == [] then []
    else Unknown(items[..|items| - 1], known)
         + if items[|items| - 1].content in known then [] else [items[|items| - 1]]
  }

  function Upserted(previous: Summary, delta: Delta, f: Field, turn: int, idOf: IdOf): seq<Item> {
    PutAll(previous.Get(f) + delta.Get(f), f, turn, delta.resolved + delta.superseded, idOf)
  }

  /** The open and the completed items once the todo list has been taken in. */
  function Tasks(open: seq<Item>, done: seq<Item>, todos: seq<Todo>, turn: int, idOf: IdOf): (seq<Item>, seq<Item>) {
    var todoOpen, todoDone := FromTodos(todos, true, turn, idOf), FromTodos(todos, false, turn, idOf);
    var known := ContentsOf(todoOpen) + ContentsOf(todoDone);
    var allDone := todoDone + Unknown(done, known);
    (Unknown(todoOpen + Unknown(open, known), ContentsOf(allDone) - {""}), allDone)
  }

  /** `merge_summary_v2`, field by field. */
  function MergedField(previous: Summary, delta: Delta, f: Field, turn: int, todos: seq<Todo>, idOf: IdOf): seq<Item> {
    match f
    case OpenItems => MergedTasks(previous, delta, turn, todos, idOf).0
    case CompletedItems => MergedTasks(previous, delta, turn, todos, idOf).1
    case _ => Upserted(previous, delta, f, turn, idOf)
  }

  function MergedTasks(previous: Summary, delta: Delta, turn: int, todos: seq<Todo>, idOf: IdOf): (seq<Item>, seq<Item>) {
    Tasks(Upserted(previous, delta, OpenItems, turn, idOf), Upserted(previous, delta, CompletedItems, turn, idOf),
          todos, turn, idOf)
  }

  method TakeTodos(todos: seq<Todo>, turn: int, idOf: IdOf) returns (open: seq<Item>, done: seq<Item>)
    ensures open == FromTodos(todos, true, turn, idOf) && done == FromTodos(todos, false, turn, idOf)
  {
    open, done := [], [];
    for n := 0 to |todos|
      invariant open == FromTodos(todos[..n], true, turn, idOf) && done == FromTodos(todos[..n], false, turn, idOf)
    {
      assert todos[..n + 1][..n] == todos[..n];
      var row := todos[n];
      if Strip(row.content) == "" {
        continue;
      }
      if IsOpen(row) {
        open := open + [TodoItem(row, turn, idOf)];
      } else if row.status == "completed" {
        done := done + [TodoItem(row, turn, idOf)];
      }
    }
    assert todos[..|todos|] == todos;
  }

  method KeepUnknown(items: seq<Item>, known: set<string>) returns (kept: seq<Item>)
    ensures kept == Unknown(items, known)
  {
    kept := [];
    for n := 0 to |items|
      invariant kept == Unknown(items[..n], known)
    {
      assert items[..n + 1][..n] == items[..n];
      if items[n].content !in known {
        kept := kept + [items[n]];
      }
    }
    assert items[..|items|] == items;
  }

  method UpsertFields(previous: Summary, delta: Delta, fields: seq<Field>, turn: int, idOf: IdOf)
    returns (updates: map<Field, seq<Item>>)
    ensures forall f :: f in updates <==> f in fields
    ensures forall f | f in updates :: updates[f] == Upserted(previous, delta, f, turn, idOf)
  {
    updates := map[];
    for n := 0 to |fields|
      invariant forall f :: f in updates <==> f in fields[..n]
      invariant forall f | f in updates :: updates[f] == Upserted(previous, delta, f, turn, idOf)
    {
      var f := fields[n];
      var items := UpsertItems(previous.Get(f), delta.Get(f), f, turn, delta.resolved + delta.superseded, idOf);
      updates := updates[f := items];
    }
  }

  method UpsertAll(previous: Summary, delta: Delta, turn: int, idOf: IdOf) returns (updates: map<Field, seq<Item>>)
    ensures forall f :: f in updates && updates[f] == Upserted(previous, delta, f, turn, idOf)
  {
    updates := UpsertFields(previous, delta, FIELDS, turn, idOf);
    forall f: Field
      ensures f in updates
    {
      EveryField(f);
    }
  }

  lemma EveryField(f: Field)
    ensures f in FIELDS
  {
    match f case _ => assert FIELDS[Index(f)] == f;
  }

  function Index(f: Field): nat {
    match f
    case Facts => 0 case Decisions => 1 case Constraints => 2 case Preferences => 3
    case Entities => 4 case Skills => 5 case Resources => 6 case ToolState => 7
    case CompletedItems => 8 case OpenItems => 9 case Failures => 10 case ConversationNotes => 11
  }

  method MergeTasks(upsertedOpen: seq<Item>, upsertedDone: seq<Item>, todos: seq<Todo>, turn: int, idOf: IdOf)
    returns (open: seq<Item>, done: seq<Item>)
    ensures (open, done) == Tasks(upsertedOpen, upsertedDone, todos, turn, idOf)
  {
    var todoOpen, todoDone := TakeTodos(todos, turn, idOf);
    var known := ContentsOf(todoOpen) + ContentsOf(todoDone);
    open := KeepUnknown(upsertedOpen, known);
    done := KeepUnknown(upsertedDone, known);
    done := todoDone + done;
    var completed := ContentsOf(done) - {""};
    open := KeepUnknown(todoOpen + open, completed);
  }

  /** `merge_summary_v2`. */
  method MergeSummary(previous: Summary, delta: Delta, turn: int, todos: seq<Todo>, maxChars: int, idOf: IdOf)
    returns (merged: Summary)
    ensures forall f :: merged.Get(f) == MergedField(previous, delta, f, turn, todos, idOf)
    ensures merged.narrative == Narrative(previous.narrative, delta.narrative, maxChars)
  {
    var updates := UpsertAll(previous, delta, turn, idOf);
    var open, done := MergeTasks(updates[OpenItems], updates[CompletedItems], todos, turn, idOf);
    merged := WithTasks(updates, open, done, Narrative(previous.narrative, delta.narrative, maxChars));
    forall f: Field
      ensures merged.Get(f) == MergedField(previous, delta, f, turn, todos, idOf)
    {
      GetWithTasks(updates, open, done, merged.narrative, f);
    }
  }

  function WithTasks(updates: map<Field, seq<Item>>, open: seq<Item>, done: seq<Item>, narrative: string): Summary {
    Summary(updates[OpenItems := open][CompletedItems := done], narrative)
  }

  lemma GetWithTasks(updates: map<Field, seq<Item>>, open: seq<Item>, done: seq<Item>, narrative: string, f: Field)
    requires f in updates
    ensures WithTasks(updates, open, done, narrative).Get(f) ==
            if f.OpenItems? then open else if f.CompletedItems? then done else updates[f]
  {
  }

  // ------------------------------------------------------ what a merge keeps

  lemma {:induction false} UnknownIff(items: seq<Item>, known: set<string>)
    ensures forall i :: i in Unknown(items, known) <==> i in items && i.content !in known
  {
    if items != [] {
      UnknownIff(items[..|items| - 1], known);
      assert items == items[..|items| - 1] + [items[|items| - 1]];
    }
  }

  /** No task is open and completed at once. */
  lemma OpenIsNotCompleted(previous: Summary, delta: Delta, turn: int, todos: seq<Todo>, idOf: IdOf, o: Item, d: Item)
    requires o in MergedField(previous, delta, OpenItems, turn, todos, idOf)
    requires d in MergedField(previous, delta, CompletedItems, turn, todos, idOf) && d.content != ""
    ensures o.content != d.content
  {
    var open, done := Upserted(previous, delta, OpenItems, turn, idOf), Upserted(previous, delta, CompletedItems, turn, idOf);
    var todoOpen, todoDone := FromTodos(todos, true, turn, idOf), FromTodos(todos, false, turn, idOf);
    var known := ContentsOf(todoOpen) + ContentsOf(todoDone);
    UnknownIff(todoOpen + Unknown(open, known), ContentsOf(todoDone + Unknown(done, known)) - {""});
  }

  /** An item for the row: its text, active unless completed, urgent while in progress. */
  ghost predicate ItemOf(i: Item, row: Todo, turn: int, idOf: IdOf) {
    && i.content == Strip(row.content) != "" && i.id == idOf("todo", [i.content])
    && i.createdTurn == i.updatedTurn == turn && i.part == Plain && i.key == ""
    && (i.status == if row.status == "completed" then Done else Active)
    && (i.priority == if row.status == "in_progress" then High else Normal)
    && i.rebuildable == Absent && i.retryable == Absent
  }

  ghost predicate OpenRow(row: Todo) {
    row.status in {"pending", "in_progress"}
  }

  lemma {:induction false} FromTodosIff(todos: seq<Todo>, open: bool, turn: int, idOf: IdOf)
    ensures forall i :: i in FromTodos(todos, open, turn, idOf) <==>
              exists row :: row in todos && ItemOf(i, row, turn, idOf) && if open then OpenRow(row) else row.status == "completed"
  {
    if todos != [] {
      var front, last := todos[..|todos| - 1], todos[|todos| - 1];
      assert todos == front + [last];
      FromTodosIff(front, open, turn, idOf);
    }
  }

  /** Some row that is open or completed has this text. */
  ghost predicate Listed(todos: seq<Todo>, content: string) {
    exists row :: row in todos && Strip(row.content) == content != "" && (OpenRow(row) || row.status == "completed")
  }

  lemma KnownIffListed(todos: seq<Todo>, turn: int, idOf: IdOf, content: string)
    ensures content in ContentsOf(FromTodos(todos, true, turn, idOf)) + ContentsOf(FromTodos(todos, false, turn, idOf))
            <==> Listed(todos, content)
  {
    hide Strip;
    FromTodosIff(todos, true, turn, idOf);
    FromTodosIff(todos, false, turn, idOf);
    if row :| row in todos && Strip(row.content) == content != "" && (OpenRow(row) || row.status == "completed") {
      var i := TodoItem(row, turn, idOf);
      assert ItemOf(i, row, turn, idOf);
    }
  }

  /** The completed tasks are those of the todo list and those of the summary and the delta
      that the list does not mention. */
  lemma CompletedIff(previous: Summary, delta: Delta, turn: int, todos: seq<Todo>, idOf: IdOf, d: Item)
    ensures d in MergedField(previous, delta, CompletedItems, turn, todos, idOf) <==>
            || (exists row :: row in todos && ItemOf(d, row, turn, idOf) && row.status == "completed")
            || (d in Upserted(previous, delta, CompletedItems, turn, idOf) && !Listed(todos, d.content))
  {
    hide Strip, Upserted;
    var known := ContentsOf(FromTodos(todos, true, turn, idOf)) + ContentsOf(FromTodos(todos, false, turn, idOf));
    FromTodosIff(todos, false, turn, idOf);
    KnownIffListed(todos, turn, idOf, d.content);
    UnknownIff(Upserted(previous, delta, CompletedItems, turn, idOf), known);
  }

  /** The open tasks are the open rows of the todo list and the open items of the summary and
      the delta that the list does not mention, but for those that are completed. */
  lemma OpenIff(previous: Summary, delta: Delta, turn: int, todos: seq<Todo>, idOf: IdOf, o: Item)
    ensures o in MergedField(previous, delta, OpenItems, turn, todos, idOf) <==>
            && (|| (exists row :: row in todos && ItemOf(o, row, turn, idOf) && OpenRow(row))
                || (o in Upserted(previous, delta, OpenItems, turn, idOf) && !Listed(todos, o.content)))
            && (o.content == "" || !exists d :: d in MergedField(previous, delta, CompletedItems, turn, todos, idOf)
                                                && d.content == o.content)
  {
    hide Strip, Upserted, FromTodos;
    var open := Upserted(previous, delta, OpenItems, turn, idOf);
    var todoOpen, todoDone := FromTodos(todos, true, turn, idOf), FromTodos(todos, false, turn, idOf);
    var known := ContentsOf(todoOpen) + ContentsOf(todoDone);
    var allDone := MergedField(previous, delta, CompletedItems, turn, todos, idOf);
    FromTodosIff(todos, true, turn, idOf);
    KnownIffListed(todos, turn, idOf, o.content);
    UnknownIff(open, known);
    UnknownIff(todoOpen + Unknown(open, known), ContentsOf(allDone) - {""});
  }

  /** Stamping keeps an id and the turns that are set, and fills in the others. */
  lemma StampedIs(i: Item, f: Field, turn: int, idOf: IdOf)
    ensures var r := Stamped(i, f, turn, idOf);
      && (IsBlank(i.id) ==> exists kind, payload :: IsKind(kind, f) && Identifies(payload, i) && r.id == idOf(kind, payload))
      && (!IsBlank(i.id) ==> r.id == i.id)
      && (i.createdTurn != 0 ==> r.createdTurn == i.createdTurn) && (i.createdTurn == 0 ==> r.createdTurn == turn)
      && (i.updatedTurn != 0 ==> r.updatedTurn == i.updatedTurn) && (i.updatedTurn == 0 ==> r.updatedTurn == turn)
      && r == i.(id := r.id, createdTurn := r.createdTurn, updatedTurn := r.updatedTurn)
  {
    StripBlank(i.id);
    assert IsKind(KindName(f), f) && Identifies(Payload(i), i);
  }

  ghost predicate IsKind(name: string, f: Field) {
    match f
    case Facts => name == "facts"
    case Decisions => name == "decisions"
    case Constraints => name == "constraints"
    case Preferences => name == "preferences"
    case Entities => name == "entities"
    case Skills => name == "skills"
    case Resources => name == "resources"
    case ToolState => name == "tool_state"
    case CompletedItems => name == "completed_items"
    case OpenItems => name == "open_items"
    case Failures => name == "failures"
    case ConversationNotes => name == "conversation_notes"
  }

  /** What makes the identity of an item: the metric of a fact, or its note when it has none;
      the key of any other item, or its text. */
  ghost predicate Identifies(payload: seq<string>, i: Item) {
    match i.part
    case OfFact(f) =>
      if f.company == f.period == f.metric == "" then
        |payload| == 3 && payload[0] == "note" && payload[2] == f.evidenceId && payload[1] == if f.note == "" then i.content else f.note
      else payload == ["company", f.company, f.period, f.metric]
    case Plain => payload == if i.key == "" then ["content", i.content] else ["key", i.key]
  }

  /** The old narrative and the new one, a space between them, clipped to the limit. */
  lemma NarrativeIs(before: string, delta: string, maxChars: int)
    ensures var was, more := Strip(before), Strip(delta);
      && (was != "" && more != "" ==> Narrative(before, delta, maxChars) == Clip(was + " " + more, maxChars))
      && (more == "" ==> Narrative(before, delta, maxChars) == Clip(was, maxChars))
      && (was == "" ==> Narrative(before, delta, maxChars) == Clip(more, maxChars))
  {
    hide Strip, Clip;
    NonEmptyPair(Strip(before), Strip(delta));
    if Strip(before) != "" && Strip(delta) != "" {
      JoinCons(Strip(before), [Strip(delta)], " ");
    } else if Strip(before) == "" && Strip(delta) == "" {
      assert NonEmpty([Strip(before), Strip(delta)]) == [];
    }
  }

  lemma NonEmptyPair(a: string, b: string)
    ensures NonEmpty([a, b]) == (if a == "" then [] else [a]) + if b == "" then [] else [b]
  {
    assert [b][1..] == [] && NonEmpty([b]) == if b == "" then [] else [b];
    assert [a, b][1..] == [b];
  }

  /** A clipped text is the front of the text, within the limit. */
  lemma ClippedIs(text: string, maxChars: int)
    ensures Clip(text, maxChars) <= Strip(text) && (maxChars > 0 ==> |Clip(text, maxChars)| <= maxChars)
    ensures maxChars <= 0 || |Strip(text)| <= maxChars ==> Clip(text, maxChars) == Strip(text)
  {
    if maxChars > 0 && |Strip(text)| > maxChars { RStripFront(Strip(text)[..maxChars]); }
  }

  /** Outside the task fields a merge keeps what is neither removed nor replaced: an item
      of the previous summary whose id the delta does not mention is still there. */
  lemma KeepsTheRest(previous: Summary, delta: Delta, f: Field, turn: int, todos: seq<Todo>, idOf: IdOf, k: nat)
    requires !f.OpenItems? && !f.CompletedItems? && k < |previous.Get(f)|
    requires var i := Stamped(previous.Get(f)[k], f, turn, idOf);
      && i.id !in delta.resolved && i.id !in delta.superseded
      && (forall j | k < j < |previous.Get(f)| :: Stamped(previous.Get(f)[j], f, turn, idOf).id != i.id)
      && (forall x | x in delta.Get(f) :: Stamped(x, f, turn, idOf).id != i.id)
    ensures Stamped(previous.Get(f)[k], f, turn, idOf) in MergedField(previous, delta, f, turn, todos, idOf)
  {
    var all := previous.Get(f) + delta.Get(f);
    forall j | k < j < |all|
      ensures Stamped(all[j], f, turn, idOf).id != Stamped(all[k], f, turn, idOf).id
    {
      if j >= |previous.Get(f)| { assert all[j] in delta.Get(f); }
    }
    UpsertLastWins(all, k, f, turn, delta.resolved + delta.superseded, idOf);
  }

  /** A merged field other than the task fields holds each id once and no removed id: what
      shrinking relies on to protect items by id. */
  lemma MergedUnique(previous: Summary, delta: Delta, f: Field, turn: int, todos: seq<Todo>, idOf: IdOf)
    requires !f.OpenItems? && !f.CompletedItems?
    ensures UniqueList(MergedField(previous, delta, f, turn, todos, idOf))
    ensures forall i | i in MergedField(previous, delta, f, turn, todos, idOf) ::
              i.id !in delta.resolved && i.id !in delta.superseded
  {
    UpsertUnique(previous.Get(f) + delta.Get(f), f, turn, delta.resolved + delta.superseded, idOf);
  }
}
