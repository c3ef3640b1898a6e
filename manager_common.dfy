/**
 * What the management screens share: the `number | ""` value of a parent
 * select box, JavaScript truthiness of ids, `new Map(entries)` for the
 * id-to-name columns, and the decision every dialog's submit handler makes.
 */
module ManagerCommon {
  import opened Base
  import opened Text

  /** A `number | ""` select value: `""` until the user picks an entry. */
  datatype IdChoice = Unchosen | Chosen(id: int)

  /** `if (!parentId) return;` lets a chosen parent through unless it is `""` or `0`. */
  predicate IsTruthy(c: IdChoice) {
    c.Chosen? && c.id != 0
  }

  /** Truthiness of a `number | null` id: `null` and `0` are falsy. */
  predicate IsSet(id: Option<int>) {
    id.Some? && id.value != 0
  }

  /** The truthy parent id, if any. */
  function TruthyId(c: IdChoice): (r: Option<int>)
    ensures r.Some? <==> IsTruthy(c)
    ensures r.Some? ==> r.value == c.id && r.value != 0
  {
    if IsTruthy(c) then Some(c.id) else None
  }

  /** The truthy value of a nullable id, if any. */
  function SetId(id: Option<int>): (r: Option<int>)
    ensures r.Some? <==> IsSet(id)
    ensures r.Some? ==> r == id && r.value != 0
  {
    if IsSet(id) then id else None
  }

  /** Entry `i` is the last one with its key. */
  predicate LastWithKey(entries: seq<(int, string)>, i: int) {
    0 <= i < |entries| && forall j :: i < j < |entries| ==> entries[j].0 != entries[i].0
  }

  /** Some entry has this key. */
  predicate HasKey(entries: seq<(int, string)>, k: int) {
    exists i :: 0 <= i < |entries| && entries[i].0 == k
  }

  /** `items.map((x) => [key(x), name(x)])`: the `(id, name)` entries a parent select and column are built from. */
  function Entries<T>(items: seq<T>, key: T -> int, name: T -> string): (e: seq<(int, string)>)
    ensures |e| == |items| && forall i :: 0 <= i < |items| ==> e[i] == (key(items[i]), name(items[i]))
  {
    seq(|items|, i requires 0 <= i < |items| => (key(items[i]), name(items[i])))
  }

  /** `new Map(entries)`: the entries inserted in order, so a later one overwrites an earlier one. */
  function NameMap(entries: seq<(int, string)>): map<int, string>
    decreases |entries|
  {
    if entries == [] then map[]
    else NameMap(entries[..|entries| - 1])[entries[|entries| - 1].0 := entries[|entries| - 1].1]
  }

  /** The map has exactly the keys of the entries. */
  lemma {:induction false} NameMapKeys(entries: seq<(int, string)>)
    ensures forall k :: k in NameMap(entries) <==> HasKey(entries, k)
    decreases |entries|
  {
    if entries != [] {
      var init := entries[..|entries| - 1];
      var last := entries[|entries| - 1];
      NameMapKeys(init);
      forall k | HasKey(entries, k) && k != last.0 ensures HasKey(init, k) {
        var i :| 0 <= i < |entries| && entries[i].0 == k;
        assert init[i] == entries[i];
      }
      forall k | HasKey(init, k) ensures HasKey(entries, k) {
        var i :| 0 <= i < |init| && init[i].0 == k;
        assert entries[i] == init[i];
      }
      assert HasKey(entries, last.0) by {
        assert entries[|entries| - 1].0 == last.0;
      }
    }
  }

  /** The value under each key is that of the last entry with the key. */
  lemma {:induction false} NameMapLastWins(entries: seq<(int, string)>)
    ensures forall i :: LastWithKey(entries, i) ==> entries[i].0 in NameMap(entries) && NameMap(entries)[entries[i].0] == entries[i].1
    decreases |entries|
  {
    if entries != [] {
      var init := entries[..|entries| - 1];
      var last := entries[|entries| - 1];
      NameMapLastWins(init);
      var m := NameMap(entries);
      assert m == NameMap(init)[last.0 := last.1];
      forall i | LastWithKey(entries, i)
        ensures entries[i].0 in m && m[entries[i].0] == entries[i].1
      {
        if i < |init| {
          assert init[i] == entries[i];
          assert entries[i].0 != last.0;
          assert LastWithKey(init, i);
        }
      }
    }
  }

  /** A table cell naming a parent: `names.get(id) ?? `#${id}``. */
  function Label(names: map<int, string>, id: int): string {
    if id in names then names[id] else "#" + IntToDecimal(id)
  }

  /**
   * The parent column shows the name of the last listed entity with that id,
   * and `#<id>` when no listed entity has it.
   */
  lemma LabelOfParent(entries: seq<(int, string)>, id: int)
    ensures forall i :: LastWithKey(entries, i) && entries[i].0 == id ==> Label(NameMap(entries), id) == entries[i].1
    ensures (forall i :: 0 <= i < |entries| ==> entries[i].0 != id) ==>
              Label(NameMap(entries), id) == "#" + IntToDecimal(id)
  {
    NameMapKeys(entries);
    NameMapLastWins(entries);
    if forall i :: 0 <= i < |entries| ==> entries[i].0 != id {
      assert !HasKey(entries, id);
    }
  }

  /** What a dialog's submit handler does. */
  datatype Route = Skip | UpdateOf(id: int) | CreateUnder(parentId: int)

  /**
   * The shared submit rule: a blank title sends nothing; an entity being
   * edited is updated; otherwise a new one is created under the parent, and
   * without a (truthy) parent nothing is sent.
   */
  function SubmitRoute(title: string, editing: Option<int>, parent: Option<int>): (r: Route)
    ensures r.Skip? <==> IsBlank(title) || (editing.None? && parent.None?)
    ensures r.UpdateOf? <==> !IsBlank(title) && editing.Some?
    ensures r.UpdateOf? ==> r.id == editing.value
    ensures r.CreateUnder? <==> !IsBlank(title) && editing.None? && parent.Some?
    ensures r.CreateUnder? ==> r.parentId == parent.value
  {
    if IsBlank(title) then Skip
    else if editing.Some? then UpdateOf(editing.value)
    else if parent.None? then Skip
    else CreateUnder(parent.value)
  }

  /** A title of spaces, tabs and line breaks is blank: typing only those never submits. */
  lemma WhitespaceTitleSkips(title: string, editing: Option<int>, parent: Option<int>)
    requires forall i :: 0 <= i < |title| ==> IsWhitespace(title[i])
    ensures SubmitRoute(title, editing, parent) == Skip
  {
    BlankIffAllWhitespace(title);
  }
}
