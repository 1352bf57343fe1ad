/**
 * Configurable dropdown options: `GET /api/dropdown-options` groups the active
 * options by category, `POST` inserts one with defaults, `PUT` rewrites one.
 */
module Dropdowns {
  import opened Optional

  datatype DropdownOption = DropdownOption(
    id: int,
    category: string,
    labelText: string,
    value: string,
    sortOrder: int,
    active: int)

  datatype DropdownError =
    | CategoryAndLabelRequired      // the 400 response of `POST`
    | LabelMissing                  // `label` NULL violates NOT NULL on `PUT`
    | PrototypeProperty(name: string) // `grouped[name]` is inherited, so `.push` throws

  /** The properties every plain JavaScript object inherits from `Object.prototype`. */
  const InheritedNames: set<string> := {
    "constructor", "hasOwnProperty", "isPrototypeOf", "propertyIsEnumerable",
    "toLocaleString", "toString", "valueOf", "__proto__", "__defineGetter__",
    "__defineSetter__", "__lookupGetter__", "__lookupSetter__"
  }

  predicate IsInherited(name: string) {
    name in InheritedNames
  }

  // ---------------------------------------------------------------------------
  // Grouping

  /** The categories that occur in `s`. */
  function Categories(s: seq<DropdownOption>): set<string> {
    if |s| == 0 then {} else Categories(s[..|s| - 1]) + {s[|s| - 1].category}
  }

  /** The options of one category, in the order the query returned them. */
  function InCategory(s: seq<DropdownOption>, c: string): seq<DropdownOption> {
    if |s| == 0 then []
    else InCategory(s[..|s| - 1], c) + (if s[|s| - 1].category == c then [s[|s| - 1]] else [])
  }

  lemma {:induction false} CategoriesMembers(s: seq<DropdownOption>, c: string)
    ensures c in Categories(s) <==> exists o :: o in s && o.category == c
    decreases |s|
  {
    if |s| > 0 {
      var init := s[..|s| - 1];
      CategoriesMembers(init, c);
      assert forall o :: o in s <==> o in init || o == s[|s| - 1];
    }
  }

  /** A category's options are exactly the input's options with that category. */
  lemma {:induction false} InCategoryMembers(s: seq<DropdownOption>, c: string)
    ensures forall o :: o in InCategory(s, c) <==> o in s && o.category == c
    decreases |s|
  {
    if |s| > 0 {
      var init := s[..|s| - 1];
      InCategoryMembers(init, c);
      assert forall o :: o in s <==> o in init || o == s[|s| - 1];
    }
  }

  lemma {:induction false} AbsentCategoryEmpty(s: seq<DropdownOption>, c: string)
    requires c !in Categories(s)
    ensures InCategory(s, c) == []
    decreases |s|
  {
    if |s| > 0 {
      AbsentCategoryEmpty(s[..|s| - 1], c);
    }
  }

  /** `m` maps each category of `s`, and nothing else, to that category's options in order. */
  predicate GroupsOf(m: map<string, seq<DropdownOption>>, s: seq<DropdownOption>) {
    m.Keys == Categories(s) && forall c :: c in m ==> m[c] == InCategory(s, c)
  }

  /** Appending `o` to its category's group, creating the group if it is new. */
  function Put(m: map<string, seq<DropdownOption>>, o: DropdownOption)
    : map<string, seq<DropdownOption>>
  {
    m[o.category := (if o.category in m then m[o.category] else []) + [o]]
  }

  /** Grouping one more option extends the grouping of the prefix. */
  lemma PutExtends(m: map<string, seq<DropdownOption>>, s: seq<DropdownOption>, o: DropdownOption)
    requires GroupsOf(m, s)
    ensures GroupsOf(Put(m, o), s + [o])
  {
    var t := s + [o];
    var p := Put(m, o);
    assert t[..|s|] == s;
    assert Categories(t) == Categories(s) + {o.category};
    assert p.Keys == m.Keys + {o.category};
    forall c | c in p
      ensures p[c] == InCategory(t, c)
    {
      if c == o.category {
        if c !in m {
          AbsentCategoryEmpty(s, c);
        }
      } else {
        assert p[c] == m[c];
      }
    }
  }

  /** The intended grouping, option by option. */
  function Grouped(s: seq<DropdownOption>): (m: map<string, seq<DropdownOption>>)
    ensures GroupsOf(m, s)
  {
    if |s| == 0 then map[]
    else
      assert s == s[..|s| - 1] + [s[|s| - 1]];
      PutExtends(Grouped(s[..|s| - 1]), s[..|s| - 1], s[|s| - 1]);
      Put(Grouped(s[..|s| - 1]), s[|s| - 1])
  }

  /** Every group is non-empty. */
  lemma GroupsNonEmpty(m: map<string, seq<DropdownOption>>, s: seq<DropdownOption>, c: string)
    requires GroupsOf(m, s) && c in m
    ensures |m[c]| >= 1
  {
    CategoriesMembers(s, c);
    var o :| o in s && o.category == c;
    InCategoryMembers(s, c);
    assert o in m[c];
  }

  /** Each option of the input lands in exactly its own category's group. */
  lemma GroupedPlacesEachOption(s: seq<DropdownOption>, o: DropdownOption)
    requires o in s
    ensures o.category in Grouped(s) && o in Grouped(s)[o.category]
    ensures forall c :: c in Grouped(s) && o in Grouped(s)[c] ==> c == o.category
  {
    CategoriesMembers(s, o.category);
    InCategoryMembers(s, o.category);
    forall c | c in Grouped(s) && o in Grouped(s)[c]
      ensures c == o.category
    {
      InCategoryMembers(s, c);
    }
  }

  /**
   * The handler's loop over `all` (the active options, ordered by category,
   * sort order and label). A category named after an inherited property
   * makes `!grouped[o.category]` false, and pushing onto the inherited value
   * throws, so the whole request fails.
   */
  method GroupByCategory(all: seq<DropdownOption>)
    returns (r: Result<map<string, seq<DropdownOption>>, DropdownError>)
    ensures r.Err? <==> exists o :: o in all && IsInherited(o.category)
    ensures r.Ok? ==> GroupsOf(r.value, all)
  {
    var grouped: map<string, seq<DropdownOption>> := map[];
    for i := 0 to |all|
      invariant GroupsOf(grouped, all[..i])
      invariant forall k :: 0 <= k < i ==> !IsInherited(all[k].category)
    {
      var o := all[i];
      if IsInherited(o.category) {
        assert o in all;
        return Err(PrototypeProperty(o.category));
      }
      assert all[..i + 1] == all[..i] + [o];
      PutExtends(grouped, all[..i], o);
      grouped := Push(grouped, o);
    }
    assert all[..|all|] == all;
    forall o | o in all
      ensures !IsInherited(o.category)
    {
      var k :| 0 <= k < |all| && all[k] == o;
    }
    return Ok(grouped);
  }

  /** `if (!grouped[c]) grouped[c] = []; grouped[c].push(option)`. */
  method Push(grouped: map<string, seq<DropdownOption>>, o: DropdownOption)
    returns (g: map<string, seq<DropdownOption>>)
    ensures g == Put(grouped, o)
  {
    g := grouped;
    if o.category !in g {
      g := g[o.category := []];
    }
    g := g[o.category := g[o.category] + [o]];
  }

  const SampleOption := DropdownOption(1, "constructor", "Client type", "client_type", 0, 1)

  /** One option in a category called "constructor" is enough to fail the request. */
  lemma PrototypeCategoryFails()
    ensures exists o :: o in [SampleOption] && IsInherited(o.category)
    ensures Grouped([SampleOption]) == map["constructor" := [SampleOption]]
  {
    assert SampleOption in [SampleOption];
    assert [SampleOption][..0] == [];
    assert Grouped([SampleOption]) == Put(map[], SampleOption);
    assert [] + [SampleOption] == [SampleOption];
  }

  // ---------------------------------------------------------------------------
  // POST and PUT

  /** JavaScript truthiness of an optional string field: present and not "". */
  predicate Truthy(s: Option<string>) {
    s.Some? && s.value != ""
  }

  /** `value || label` for a truthy `label`. */
  function OrElse(value: Option<string>, fallback: string): string {
    if Truthy(value) then value.value else fallback
  }

  /** `sort_order || 0`. */
  function SortOrderOr0(sortOrder: Option<int>): int {
    match sortOrder
    case Some(n) => n
    case None => 0
  }

  /** The row `POST /api/dropdown-options` inserts, or the 400 error. */
  function NewOption(id: int, category: Option<string>, labelText: Option<string>,
                     value: Option<string>, sortOrder: Option<int>)
    : (r: Result<DropdownOption, DropdownError>)
    ensures r.Err? <==> !Truthy(category) || !Truthy(labelText)
    ensures r.Err? ==> r.error == CategoryAndLabelRequired
    ensures r.Ok? ==> && r.value.id == id
                      && r.value.category == category.value && r.value.labelText == labelText.value
                      && r.value.value != ""
                      && (Truthy(value) ==> r.value.value == value.value)
                      && (!Truthy(value) ==> r.value.value == labelText.value)
                      && (sortOrder.None? ==> r.value.sortOrder == 0)
                      && (sortOrder.Some? ==> r.value.sortOrder == sortOrder.value)
                      && r.value.active == 1
  {
    if !Truthy(category) || !Truthy(labelText) then Err(CategoryAndLabelRequired)
    else Ok(DropdownOption(id, category.value, labelText.value, OrElse(value, labelText.value),
                           SortOrderOr0(sortOrder), 1))
  }

  /** The `active` field of a `PUT` body: left out, or given (null counts as falsy). */
  datatype ActiveField = Omitted | Given(truthy: bool)

  /** `active !== undefined ? (active ? 1 : 0) : 1`. */
  function ActiveFlag(a: ActiveField): (n: int)
    ensures n == 0 <==> a == Given(false)
    ensures n == 0 || n == 1
  {
    match a
    case Omitted => 1
    case Given(t) => if t then 1 else 0
  }

  /**
   * `PUT /api/dropdown-options/:id`: every row with the id gets the new
   * label, value, sort order and active flag; ids and categories stay. A
   * missing label violates NOT NULL on a row the update writes, so it fails
   * only when some row has the id; an unknown id changes nothing and still
   * succeeds.
   */
  function UpdatedOptions(table: seq<DropdownOption>, id: int, labelText: Option<string>,
                          value: Option<string>, sortOrder: Option<int>, active: ActiveField)
    : (r: Result<seq<DropdownOption>, DropdownError>)
    ensures r.Err? <==> labelText.None? && HasId(table, id)
    ensures r.Ok? ==> |r.value| == |table|
    ensures r.Ok? && labelText.None? ==> r.value == table
    ensures r.Ok? && labelText.Some? ==> forall i :: 0 <= i < |table| ==>
              && r.value[i].id == table[i].id && r.value[i].category == table[i].category
              && (table[i].id != id ==> r.value[i] == table[i])
              && (table[i].id == id ==>
                    && r.value[i].labelText == labelText.value
                    && r.value[i].value == OrElse(value, labelText.value)
                    && r.value[i].sortOrder == SortOrderOr0(sortOrder)
                    && r.value[i].active == ActiveFlag(active))
  {
    if labelText.None? then (if HasId(table, id) then Err(LabelMissing) else Ok(table))
    else
      var row := (o: DropdownOption) =>
        o.(labelText := labelText.value, value := OrElse(value, labelText.value),
           sortOrder := SortOrderOr0(sortOrder), active := ActiveFlag(active));
      Ok(seq(|table|, i requires 0 <= i < |table| =>
        if table[i].id == id then row(table[i]) else table[i]))
  }

  /** Some row of the table has the id, so `WHERE id = ?` writes it. */
  predicate HasId(table: seq<DropdownOption>, id: int) {
    exists i :: 0 <= i < |table| && table[i].id == id
  }

  /** An update whose id no row has writes nothing and succeeds, with or without a label. */
  lemma UnknownIdUnchanged(table: seq<DropdownOption>, id: int, labelText: Option<string>,
                           value: Option<string>, sortOrder: Option<int>, active: ActiveField)
    requires forall i :: 0 <= i < |table| ==> table[i].id != id
    ensures UpdatedOptions(table, id, labelText, value, sortOrder, active) == Ok(table)
  {
    var r := UpdatedOptions(table, id, labelText, value, sortOrder, active);
    assert r.Ok?;
    assert forall i :: 0 <= i < |table| ==> r.value[i] == table[i];
    assert r.value == table;
  }

  /** `WHERE active = 1`, in table order. */
  function ActiveOptions(table: seq<DropdownOption>): (r: seq<DropdownOption>)
    ensures forall o :: o in r <==> o in table && o.active == 1
  {
    if |table| == 0 then []
    else (if table[0].active == 1 then [table[0]] else []) + ActiveOptions(table[1..])
  }

  /** A newly added option is listed under its category until it is deactivated. */
  lemma AddedOptionListed(table: seq<DropdownOption>, id: int, category: Option<string>,
                          labelText: Option<string>, value: Option<string>, sortOrder: Option<int>)
    requires NewOption(id, category, labelText, value, sortOrder).Ok?
    ensures var o := NewOption(id, category, labelText, value, sortOrder).value;
            var g := Grouped(ActiveOptions(table + [o]));
            category.value in g && o in g[category.value]
  {
    var o := NewOption(id, category, labelText, value, sortOrder).value;
    GroupedPlacesEachOption(ActiveOptions(table + [o]), o);
  }

  /** Deactivating an option through `PUT` removes it from every group. */
  lemma DeactivatedOptionHidden(table: seq<DropdownOption>, id: int, labelText: Option<string>,
                                value: Option<string>, sortOrder: Option<int>,
                                c: string, o: DropdownOption)
    requires labelText.Some?
    requires var t := UpdatedOptions(table, id, labelText, value, sortOrder, Given(false)).value;
             var g := Grouped(ActiveOptions(t));
             c in g && o in g[c]
    ensures o.id != id
  {
    var t := UpdatedOptions(table, id, labelText, value, sortOrder, Given(false)).value;
    var active := ActiveOptions(t);
    assert Grouped(active)[c] == InCategory(active, c);
    InCategoryMembers(active, c);
    assert o in active;
    assert o in t && o.active == 1;
    var i :| 0 <= i < |t| && t[i] == o;
  }
}
