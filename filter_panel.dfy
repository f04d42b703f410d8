/** The filter panel of the listing page: four selections (categories, districts, types, paid) read
    from the URL, changed by the checkbox handlers, and written back to the URL. Categories read from
    the URL are not validated, so every selection is a list of strings; a category selection matches a
    type option when it equals that option's category code. */
module FilterPanel {
  import opened Wrappers
  import opened Strings
  import opened Seqs
  import opened Types
  import opened UrlParams

  /** The four selections of the panel. */
  datatype Selections = Selections(categories: seq<string>, districts: seq<string>, types: seq<string>,
                                   paid: string)

  /** The selections of a fresh panel, and after `clearAllFilters`. */
  const NO_SELECTIONS: Selections := Selections([], [], [], "")

  /** `hasActiveFilters`. */
  predicate HasActiveFilters(s: Selections)
  {
    |s.categories| > 0 || |s.districts| > 0 || |s.types| > 0 || s.paid != ""
  }

  /** The panel shows active filters exactly when some selection is made. */
  lemma ActiveIffSelected(s: Selections)
    ensures HasActiveFilters(s) <==> s != NO_SELECTIONS
  {
  }

  predicate NonEmpty(w: string)
  {
    w != ""
  }

  /** `get(name)?.split(',').filter(Boolean) || []`: the non-empty comma-separated pieces of a list
      parameter, and no piece when the parameter is missing. */
  function ListParam(p: Params, name: string): (r: seq<string>)
    ensures Get(p, name).None? ==> r == []
    ensures forall i :: 0 <= i < |r| ==> r[i] != "" && ',' !in r[i]
  {
    match Get(p, name)
    case None => []
    case Some(v) =>
      var pieces := Split(v, ',');
      var r := Filter(NonEmpty, pieces);
      assert forall i :: 0 <= i < |r| ==> r[i] in r;
      assert forall x :: x in pieces ==> ',' !in x;
      r
  }

  /** The effect that initialises the selections from the URL; `paid` is `''` when missing. */
  function ParseSelections(p: Params): Selections
  {
    Selections(ListParam(p, "categories"), ListParam(p, "districts"), ListParam(p, "types"),
               OrEmpty(Get(p, "paid")))
  }

  /** Set a list parameter to the comma join of a non-empty list, delete it for an empty one. */
  function SetList(p: Params, name: string, xs: seq<string>): Params
  {
    if |xs| > 0 then Set(p, name, Join(xs, ',')) else Delete(p, name)
  }

  /** The parameters `updateUrl` writes: the current ones with each list set or deleted, `paid` set when
      non-empty and deleted otherwise, and `page` always deleted. */
  function UpdatedParams(p: Params, s: Selections): Params
  {
    var q1 := SetList(p, "categories", s.categories);
    var q2 := SetList(q1, "districts", s.districts);
    var q3 := SetList(q2, "types", s.types);
    var q4 := if s.paid != "" then Set(q3, "paid", s.paid) else Delete(q3, "paid");
    Delete(q4, "page")
  }

  /** A listing URL: `/spots`, followed by `?` and the query when it is not empty. */
  function SpotsUrl(q: Params): string
  {
    var query := Serialize(q);
    "/spots" + (if query != "" then "?" + query else "")
  }

  /** A listing URL reads back as the parameters it was written from. */
  lemma SpotsUrlReadsBack(q: Params)
    requires AllWritable(q)
    ensures ReadSpotsUrl(SpotsUrl(q)) == Some(q)
  {
    if Serialize(q) != "" {
      assert SpotsUrl(q) == "/spots?" + Serialize(q);
      QueryUrlReadsBack(q);
    } else {
      ParseSerialize(q);
      assert Parse("") == [];
    }
  }

  /** The URL `updateUrl` pushes. */
  function UpdatedUrl(p: Params, s: Selections): string
  {
    SpotsUrl(UpdatedParams(p, s))
  }

  /** The value a selection list is written as, or nothing for an empty list. */
  function ListValue(xs: seq<string>): Option<string>
  {
    if |xs| > 0 then Some(Join(xs, ',')) else None
  }

  /** The names `updateUrl` writes or deletes. */
  predicate IsFilterName(name: string)
  {
    name == "categories" || name == "districts" || name == "types" || name == "paid" || name == "page"
  }

  lemma SetListGet(p: Params, name: string, xs: seq<string>, other: string)
    ensures Get(SetList(p, name, xs), name) == ListValue(xs)
    ensures other != name ==> Get(SetList(p, name, xs), other) == Get(p, other)
  {
    if |xs| > 0 {
      GetSet(p, name, Join(xs, ','));
      if other != name {
        GetSetOther(p, name, Join(xs, ','), other);
      }
    } else {
      GetDelete(p, name);
      if other != name {
        GetDeleteOther(p, name, other);
      }
    }
  }

  lemma SetPaidGet(p: Params, paid: string, other: string)
    ensures Get(if paid != "" then Set(p, "paid", paid) else Delete(p, "paid"), "paid") ==
            (if paid != "" then Some(paid) else None)
    ensures other != "paid" ==>
            Get(if paid != "" then Set(p, "paid", paid) else Delete(p, "paid"), other) == Get(p, other)
  {
    if paid != "" {
      GetSet(p, "paid", paid);
      if other != "paid" {
        GetSetOther(p, "paid", paid, other);
      }
    } else {
      GetDelete(p, "paid");
      if other != "paid" {
        GetDeleteOther(p, "paid", other);
      }
    }
  }

  /** What `updateUrl` writes: each list parameter exactly when its list is non-empty, as the comma
      join; `paid` exactly when it is non-empty; never a `page`; and every other parameter as it was. */
  lemma UpdatedParamsGet(p: Params, s: Selections)
    ensures var q := UpdatedParams(p, s);
            Get(q, "categories") == ListValue(s.categories) &&
            Get(q, "districts") == ListValue(s.districts) &&
            Get(q, "types") == ListValue(s.types) &&
            Get(q, "paid") == (if s.paid != "" then Some(s.paid) else None) &&
            Get(q, "page") == None
    ensures forall other :: !IsFilterName(other) ==> Get(UpdatedParams(p, s), other) == Get(p, other)
  {
    var q1 := SetList(p, "categories", s.categories);
    var q2 := SetList(q1, "districts", s.districts);
    var q3 := SetList(q2, "types", s.types);
    var q4 := if s.paid != "" then Set(q3, "paid", s.paid) else Delete(q3, "paid");
    SetListGet(p, "categories", s.categories, "districts");
    SetListGet(q1, "districts", s.districts, "types");
    SetListGet(q2, "types", s.types, "paid");
    SetListGet(q1, "districts", s.districts, "categories");
    SetListGet(q2, "types", s.types, "categories");
    SetListGet(q2, "types", s.types, "districts");
    SetPaidGet(q3, s.paid, "categories");
    SetPaidGet(q3, s.paid, "districts");
    SetPaidGet(q3, s.paid, "types");
    GetDelete(q4, "page");
    GetDeleteOther(q4, "page", "categories");
    GetDeleteOther(q4, "page", "districts");
    GetDeleteOther(q4, "page", "types");
    GetDeleteOther(q4, "page", "paid");
    forall other | !IsFilterName(other)
      ensures Get(UpdatedParams(p, s), other) == Get(p, other)
    {
      SetListGet(p, "categories", s.categories, other);
      SetListGet(q1, "districts", s.districts, other);
      SetListGet(q2, "types", s.types, other);
      SetPaidGet(q3, s.paid, other);
      GetDeleteOther(q4, "page", other);
    }
  }

  /** A value that survives being written to the URL: no '&', and no ',' inside a list. */
  predicate StorableItem(x: string)
  {
    x != "" && ',' !in x && '&' !in x
  }

  predicate Storable(s: Selections)
  {
    (forall i :: 0 <= i < |s.categories| ==> StorableItem(s.categories[i])) &&
    (forall i :: 0 <= i < |s.districts| ==> StorableItem(s.districts[i])) &&
    (forall i :: 0 <= i < |s.types| ==> StorableItem(s.types[i])) &&
    '&' !in s.paid
  }

  /** Reading back a list written as a comma join gives the list. */
  lemma ListRoundTrip(xs: seq<string>)
    requires forall i :: 0 <= i < |xs| ==> StorableItem(xs[i])
    ensures (match ListValue(xs) case None => [] case Some(v) => Filter(NonEmpty, Split(v, ','))) == xs
  {
    if |xs| > 0 {
      SplitJoin(xs, ',');
      FilterAllPass(NonEmpty, xs);
    }
  }

  lemma {:induction false} JoinHasNo(xs: seq<string>, sep: char, c: char)
    requires c != sep && forall i :: 0 <= i < |xs| ==> c !in xs[i]
    ensures c !in Join(xs, sep)
    decreases |xs|
  {
    if |xs| > 1 {
      JoinHasNo(xs[1..], sep, c);
    }
  }

  lemma SetListWritable(p: Params, name: string, xs: seq<string>)
    requires AllWritable(p) && '=' !in name && '&' !in name
    requires forall i :: 0 <= i < |xs| ==> StorableItem(xs[i])
    ensures AllWritable(SetList(p, name, xs))
  {
    if |xs| > 0 {
      JoinHasNo(xs, ',', '&');
      SetWritable(p, name, Join(xs, ','));
    } else {
      DeleteWritable(p, name);
    }
  }

  /** Every pair `updateUrl` writes can be read back. */
  lemma UpdatedParamsWritable(p: Params, s: Selections)
    requires AllWritable(p)
    requires Storable(s)
    ensures AllWritable(UpdatedParams(p, s))
  {
    var q1 := SetList(p, "categories", s.categories);
    var q2 := SetList(q1, "districts", s.districts);
    var q3 := SetList(q2, "types", s.types);
    SetListWritable(p, "categories", s.categories);
    SetListWritable(q1, "districts", s.districts);
    SetListWritable(q2, "types", s.types);
    if s.paid != "" {
      SetWritable(q3, "paid", s.paid);
      DeleteWritable(Set(q3, "paid", s.paid), "page");
    } else {
      DeleteWritable(q3, "paid");
      DeleteWritable(Delete(q3, "paid"), "page");
    }
  }

  /** The pushed URL carries exactly the parameters `updateUrl` computed. */
  lemma UpdatedUrlReadsBack(p: Params, s: Selections)
    requires AllWritable(p)
    requires Storable(s)
    ensures ReadSpotsUrl(UpdatedUrl(p, s)) == Some(UpdatedParams(p, s))
  {
    UpdatedParamsWritable(p, s);
    SpotsUrlReadsBack(UpdatedParams(p, s));
  }

  lemma ListParamOfValue(q: Params, name: string, xs: seq<string>)
    requires Get(q, name) == ListValue(xs)
    requires forall i :: 0 <= i < |xs| ==> StorableItem(xs[i])
    ensures ListParam(q, name) == xs
  {
    ListRoundTrip(xs);
  }

  /** Round trip: reading the URL `updateUrl` pushes gives back the selections it was given. */
  lemma SelectionsRoundTrip(p: Params, s: Selections)
    requires AllWritable(p)
    requires Storable(s)
    ensures ReadSpotsUrl(UpdatedUrl(p, s)) == Some(UpdatedParams(p, s))
    ensures ParseSelections(UpdatedParams(p, s)) == s
  {
    UpdatedUrlReadsBack(p, s);
    var q := UpdatedParams(p, s);
    UpdatedParamsGet(p, s);
    ListParamOfValue(q, "categories", s.categories);
    ListParamOfValue(q, "districts", s.districts);
    ListParamOfValue(q, "types", s.types);
  }

  /** `filterOptions.types.find(t => t.value === value)`: the first option with that value. */
  function FindTypeOption(options: seq<TypeOption>, value: string): (r: Option<TypeOption>)
    ensures r.None? <==> forall i :: 0 <= i < |options| ==> options[i].value != value
    ensures r.Some? ==> exists i :: 0 <= i < |options| && options[i] == r.value && r.value.value == value &&
                                    forall j :: 0 <= j < i ==> options[j].value != value
    decreases |options|
  {
    if options == [] then None
    else if options[0].value == value then Some(options[0])
    else
      var r := FindTypeOption(options[1..], value);
      assert forall j :: 0 <= j < |options| - 1 ==> options[1..][j] == options[j + 1];
      if r.Some? then
        var i :| 0 <= i < |options[1..]| && options[1..][i] == r.value && r.value.value == value &&
                 forall j :: 0 <= j < i ==> options[1..][j].value != value;
        assert options[i + 1] == r.value && forall j :: 0 <= j < i + 1 ==> options[j].value != value;
        r
      else r
  }

  /** `typeOption?.category !== category`: a selected type survives the removal of a category unless its
      first matching option belongs to that category. */
  predicate KeepType(options: seq<TypeOption>, category: string, t: string)
  {
    var o := FindTypeOption(options, t);
    o.None? || CategoryCode(o.value.category) != category
  }

  /** The selected types that survive the removal of a category, in their order. */
  function CascadeTypes(options: seq<TypeOption>, category: string, types: seq<string>): (r: seq<string>)
    ensures SubseqOf(r, types)
    ensures forall t :: t in r <==> t in types && KeepType(options, category, t)
  {
    Filter((t: string) => KeepType(options, category, t), types)
  }

  /** `xs.filter(x => x !== v)`: every occurrence of a value removed. */
  function Without(xs: seq<string>, v: string): (r: seq<string>)
    ensures SubseqOf(r, xs)
    ensures forall x :: x in r <==> x in xs && x != v
  {
    Filter((x: string) => x != v, xs)
  }

  /** `handleCategoryChange`: checking appends the category; unchecking removes it and cascades to the
      types. */
  function CategoryChanged(s: Selections, options: seq<TypeOption>, category: string, checked: bool): Selections
  {
    if checked then s.(categories := s.categories + [category])
    else s.(categories := Without(s.categories, category), types := CascadeTypes(options, category, s.types))
  }

  /** `handleDistrictChange`. */
  function DistrictChanged(s: Selections, district: string, checked: bool): Selections
  {
    s.(districts := if checked then s.districts + [district] else Without(s.districts, district))
  }

  /** `handleTypeChange`. */
  function TypeChanged(s: Selections, t: string, checked: bool): Selections
  {
    s.(types := if checked then s.types + [t] else Without(s.types, t))
  }

  /** `handlePaidChange`. */
  function PaidChanged(s: Selections, paidValue: string, checked: bool): Selections
  {
    s.(paid := if checked then paidValue else "")
  }

  /** The badge kinds `removeFilter` is called with. */
  datatype FilterKind = CategoryFilter | DistrictFilter | TypeFilter | PaidFilter

  /** `removeFilter`. */
  function Removed(s: Selections, options: seq<TypeOption>, kind: FilterKind, value: string): Selections
  {
    match kind
    case CategoryFilter =>
      s.(categories := Without(s.categories, value), types := CascadeTypes(options, value, s.types))
    case DistrictFilter => s.(districts := Without(s.districts, value))
    case TypeFilter => s.(types := Without(s.types, value))
    case PaidFilter => s.(paid := "")
  }

  /** Unchecking a category removes it and every selected type whose first matching option is of that
      category; types without a matching option, districts and paid are untouched. */
  lemma UncheckCategory(s: Selections, options: seq<TypeOption>, category: string)
    ensures var r := CategoryChanged(s, options, category, false);
            category !in r.categories && SubseqOf(r.categories, s.categories) &&
            (forall c :: c in r.categories <==> c in s.categories && c != category) &&
            SubseqOf(r.types, s.types) &&
            (forall t :: t in s.types && FindTypeOption(options, t).None? ==> t in r.types) &&
            (forall t :: t in s.types && FindTypeOption(options, t).Some? ==>
               (t in r.types <==> CategoryCode(FindTypeOption(options, t).value.category) != category)) &&
            r.districts == s.districts && r.paid == s.paid
  {
  }

  /** Checking a district, type or category appends it at the end and changes nothing else. */
  lemma CheckAppends(s: Selections, options: seq<TypeOption>, v: string)
    ensures CategoryChanged(s, options, v, true) == s.(categories := s.categories + [v])
    ensures DistrictChanged(s, v, true) == s.(districts := s.districts + [v])
    ensures TypeChanged(s, v, true) == s.(types := s.types + [v])
  {
  }

  /** Unchecking a district or a type removes all of its occurrences, including one just checked. */
  lemma CheckThenUncheck(s: Selections, v: string)
    ensures DistrictChanged(DistrictChanged(s, v, true), v, false) == DistrictChanged(s, v, false)
    ensures TypeChanged(TypeChanged(s, v, true), v, false) == TypeChanged(s, v, false)
    ensures v !in DistrictChanged(s, v, false).districts && v !in TypeChanged(s, v, false).types
  {
    FilterAppend((x: string) => x != v, s.districts, [v]);
    FilterAppend((x: string) => x != v, s.types, [v]);
  }

  /** Paid is single-valued: checking replaces it with the option, unchecking resets it. */
  lemma PaidSingleValued(s: Selections, a: string, b: string)
    ensures PaidChanged(PaidChanged(s, a, true), b, true) == PaidChanged(s, b, true)
    ensures PaidChanged(s, a, false).paid == ""
  {
  }

  /** Removing a badge has the effect of unchecking its option. */
  lemma RemoveIsUncheck(s: Selections, options: seq<TypeOption>, value: string, paidValue: string)
    ensures Removed(s, options, CategoryFilter, value) == CategoryChanged(s, options, value, false)
    ensures Removed(s, options, DistrictFilter, value) == DistrictChanged(s, value, false)
    ensures Removed(s, options, TypeFilter, value) == TypeChanged(s, value, false)
    ensures Removed(s, options, PaidFilter, value) == PaidChanged(s, paidValue, false)
  {
  }

  /** `getAvailableTypes`: every type option when no category is selected, otherwise those of a selected
      category, in their order. */
  function AvailableTypes(options: seq<TypeOption>, categories: seq<string>): (r: seq<TypeOption>)
    ensures |categories| == 0 ==> r == options
    ensures SubseqOf(r, options)
    ensures |categories| > 0 ==> forall o :: o in r <==> o in options && CategoryCode(o.category) in categories
  {
    if |categories| == 0 then SubseqOfSelf(options); options
    else Filter((o: TypeOption) => CategoryCode(o.category) in categories, options)
  }

  /** The panel: the four selections, the URL parameters it reads, the type options it was given, and
      the URLs it has pushed to the router, in order. */
  class Panel {
    const typeOptions: seq<TypeOption>
    var selectedCategories: seq<string>
    var selectedDistricts: seq<string>
    var selectedTypes: seq<string>
    var selectedPaid: string
    var searchParams: Params
    var pushed: seq<string>

    function Selected(): Selections
      reads this
    {
      Selections(selectedCategories, selectedDistricts, selectedTypes, selectedPaid)
    }

    /** A panel starts with nothing selected and nothing pushed. */
    constructor(typeOptions: seq<TypeOption>, searchParams: Params)
      ensures this.typeOptions == typeOptions && this.searchParams == searchParams
      ensures Selected() == NO_SELECTIONS && pushed == []
    {
      this.typeOptions := typeOptions;
      this.searchParams := searchParams;
      selectedCategories := [];
      selectedDistricts := [];
      selectedTypes := [];
      selectedPaid := "";
      pushed := [];
    }

    /** The effect run when the URL's parameters change: every selection replaced by the URL's. */
    method SyncFromUrl(params: Params)
      modifies this
      ensures searchParams == params && Selected() == ParseSelections(params)
      ensures pushed == old(pushed)
    {
      searchParams := params;
      selectedCategories := ListParam(params, "categories");
      selectedDistricts := ListParam(params, "districts");
      selectedTypes := ListParam(params, "types");
      selectedPaid := OrEmpty(Get(params, "paid"));
    }

    /** `updateUrl`: push the URL for the given selections; the selections themselves are unchanged. */
    method UpdateUrl(s: Selections)
      modifies this
      ensures pushed == old(pushed) + [UpdatedUrl(searchParams, s)]
      ensures Selected() == old(Selected()) && searchParams == old(searchParams)
    {
      var params := UpdatedParams(searchParams, s);
      var query := Serialize(params);
      var newUrl := "/spots" + (if query != "" then "?" + query else "");
      pushed := pushed + [newUrl];
    }

    method HandleCategoryChange(category: string, checked: bool)
      modifies this
      ensures Selected() == CategoryChanged(old(Selected()), typeOptions, category, checked)
      ensures pushed == old(pushed) + [UpdatedUrl(searchParams, Selected())] && searchParams == old(searchParams)
    {
      var newCategories: seq<string>;
      var newTypes := selectedTypes;
      if checked {
        newCategories := selectedCategories + [category];
      } else {
        newCategories := Without(selectedCategories, category);
        newTypes := CascadeTypes(typeOptions, category, selectedTypes);
      }
      selectedCategories := newCategories;
      selectedTypes := newTypes;
      UpdateUrl(Selections(newCategories, selectedDistricts, newTypes, selectedPaid));
    }

    method HandleDistrictChange(district: string, checked: bool)
      modifies this
      ensures Selected() == DistrictChanged(old(Selected()), district, checked)
      ensures pushed == old(pushed) + [UpdatedUrl(searchParams, Selected())] && searchParams == old(searchParams)
    {
      var newDistricts := if checked then selectedDistricts + [district] else Without(selectedDistricts, district);
      selectedDistricts := newDistricts;
      UpdateUrl(Selections(selectedCategories, newDistricts, selectedTypes, selectedPaid));
    }

    method HandleTypeChange(t: string, checked: bool)
      modifies this
      ensures Selected() == TypeChanged(old(Selected()), t, checked)
      ensures pushed == old(pushed) + [UpdatedUrl(searchParams, Selected())] && searchParams == old(searchParams)
    {
      var newTypes := if checked then selectedTypes + [t] else Without(selectedTypes, t);
      selectedTypes := newTypes;
      UpdateUrl(Selections(selectedCategories, selectedDistricts, newTypes, selectedPaid));
    }

    method HandlePaidChange(paidValue: string, checked: bool)
      modifies this
      ensures Selected() == PaidChanged(old(Selected()), paidValue, checked)
      ensures pushed == old(pushed) + [UpdatedUrl(searchParams, Selected())] && searchParams == old(searchParams)
    {
      var newPaid := if checked then paidValue else "";
      selectedPaid := newPaid;
      UpdateUrl(Selections(selectedCategories, selectedDistricts, selectedTypes, newPaid));
    }

    method RemoveFilter(kind: FilterKind, value: string)
      modifies this
      ensures Selected() == Removed(old(Selected()), typeOptions, kind, value)
      ensures pushed == old(pushed) + [UpdatedUrl(searchParams, Selected())] && searchParams == old(searchParams)
    {
      match kind
      case CategoryFilter =>
        var newCategories := Without(selectedCategories, value);
        var newTypes := CascadeTypes(typeOptions, value, selectedTypes);
        selectedCategories := newCategories;
        selectedTypes := newTypes;
        UpdateUrl(Selections(newCategories, selectedDistricts, newTypes, selectedPaid));
      case DistrictFilter =>
        var newDistricts := Without(selectedDistricts, value);
        selectedDistricts := newDistricts;
        UpdateUrl(Selections(selectedCategories, newDistricts, selectedTypes, selectedPaid));
      case TypeFilter =>
        var newTypes := Without(selectedTypes, value);
        selectedTypes := newTypes;
        UpdateUrl(Selections(selectedCategories, selectedDistricts, newTypes, selectedPaid));
      case PaidFilter =>
        selectedPaid := "";
        UpdateUrl(Selections(selectedCategories, selectedDistricts, selectedTypes, ""));
    }

    /** `clearAllFilters`: every selection emptied, and the URL pushed without any filter. */
    method ClearAllFilters()
      modifies this
      ensures Selected() == NO_SELECTIONS && !HasActiveFilters(Selected())
      ensures pushed == old(pushed) + [UpdatedUrl(searchParams, NO_SELECTIONS)] && searchParams == old(searchParams)
    {
      selectedCategories := [];
      selectedDistricts := [];
      selectedTypes := [];
      selectedPaid := "";
      UpdateUrl(Selections([], [], [], ""));
    }
  }

  /** After any handler, following the pushed URL gives back the panel's selections: the URL the
      panel pushes is read by the initialising effect as exactly the selections the handler set. */
  method HandlerThenSync(f: Panel, district: string)
    requires AllWritable(f.searchParams)
    requires Storable(f.Selected()) && StorableItem(district)
    modifies f
    ensures f.Selected() == DistrictChanged(old(f.Selected()), district, true)
  {
    f.HandleDistrictChange(district, true);
    var s := f.Selected();
    assert forall i :: 0 <= i < |s.districts| ==> StorableItem(s.districts[i]);
    SelectionsRoundTrip(f.searchParams, s);
    var url := f.pushed[|f.pushed| - 1];
    var params := ReadSpotsUrl(url).value;
    f.SyncFromUrl(params);
  }
}
