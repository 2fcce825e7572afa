/**
 * The catalog-shaping helpers of the menu converter: the category name
 * derived from a CSV file name (`clean_category_name`) and the grouping of
 * an item's decoded modifier groups into required and optional ones
 * (`parse_modifiers`). JSON decoding is a parameter; text is ASCII.
 */
module MenuConvert {
  import opened Wrappers
  import opened Strings
  import opened Menu

  // ---------------------------------------------------------------------------
  // Category names.

  /** The index of the last '.' in s, or -1 when there is none. */
  function LastDot(s: string): (i: int)
    ensures -1 <= i < |s|
    ensures i >= 0 ==> s[i] == '.'
    ensures forall j :: i < j < |s| ==> s[j] != '.'
  {
    if |s| == 0 then -1
    else if s[|s| - 1] == '.' then |s| - 1
    else LastDot(s[..|s| - 1])
  }

  /** `Path(name).stem` of a bare file name: drop the last suffix, unless the dot leads or ends the name. */
  function Stem(name: string): string
  {
    var i := LastDot(name);
    if 0 < i < |name| - 1 then name[..i] else name
  }

  /** `s.replace('_', ' ')` */
  function SpacesForUnderscores(s: string): (r: string)
    ensures |r| == |s|
    ensures forall i :: 0 <= i < |s| ==> r[i] == if s[i] == '_' then ' ' else s[i]
  {
    seq(|s|, i requires 0 <= i < |s| => if s[i] == '_' then ' ' else s[i])
  }

  /** `str.title()` as CPython computes it: a letter after a letter is lowered, any other letter raised. */
  function TitleFrom(s: string, afterLetter: bool): string
  {
    if |s| == 0 then []
    else
      var c := if !IsLetter(s[0]) then s[0]
               else if afterLetter then ToLowerChar(s[0])
               else ToUpperChar(s[0]);
      [c] + TitleFrom(s[1..], IsLetter(s[0]))
  }

  function Title(s: string): string
  {
    TitleFrom(s, false)
  }

  /** The title-cased character at position i: first letter of a letter run upper, the rest lower. */
  function TitleChar(s: string, i: nat): char
    requires i < |s|
  {
    if !IsLetter(s[i]) then s[i]
    else if i > 0 && IsLetter(s[i - 1]) then ToLowerChar(s[i])
    else ToUpperChar(s[i])
  }

  lemma {:induction false} TitleFromAt(s: string, afterLetter: bool, i: nat)
    requires i < |s|
    ensures |TitleFrom(s, afterLetter)| == |s|
    ensures TitleFrom(s, afterLetter)[i] ==
      if !IsLetter(s[i]) then s[i]
      else if (if i == 0 then afterLetter else IsLetter(s[i - 1])) then ToLowerChar(s[i])
      else ToUpperChar(s[i])
    decreases |s|
  {
    if i == 0 {
      TitleFromLength(s[1..], IsLetter(s[0]));
    } else {
      TitleFromAt(s[1..], IsLetter(s[0]), i - 1);
      assert s[1..][i - 1] == s[i];
      if i > 1 {
        assert s[1..][i - 2] == s[i - 1];
      }
    }
  }

  lemma {:induction false} TitleFromLength(s: string, afterLetter: bool)
    ensures |TitleFrom(s, afterLetter)| == |s|
    decreases |s|
  {
    if |s| > 0 {
      TitleFromLength(s[1..], IsLetter(s[0]));
    }
  }

  /** `str.title()` upper-cases the first letter of every letter run and lower-cases the rest. */
  lemma TitleAt(s: string, i: nat)
    requires i < |s|
    ensures |Title(s)| == |s| && Title(s)[i] == TitleChar(s, i)
  {
    TitleFromAt(s, false, i);
  }

  /** Title-casing a title-cased name changes nothing. */
  lemma TitleIdempotent(s: string)
    ensures Title(Title(s)) == Title(s)
  {
    var t := Title(s);
    TitleFromLength(s, false);
    TitleFromLength(t, false);
    forall i | 0 <= i < |s| ensures Title(t)[i] == t[i] {
      TitleAt(s, i);
      TitleAt(t, i);
      if i > 0 {
        TitleAt(s, i - 1);
      }
    }
  }

  /** The special cases, in the order the converter tries them. */
  const Replacements: seq<(string, string)> := [
    ("Pastriesmuffinsdonuts", "Pastries, Muffins & Donuts"),
    ("Omelets Breakfast", "Omelets & Breakfast"),
    ("Bagels Sandwiches", "Bagels & Sandwiches"),
    ("Paninis Wraps", "Paninis & Wraps"),
    ("Soup Farina", "Soup & Farina"),
    ("Spreads Vegetables", "Spreads & Vegetables"),
    ("Grab N Go", "Grab & Go"),
    ("Patis Pastries", "Pati's Pastries"),
    ("Patis Savory", "Pati's Savory"),
    ("Chefs Specialties Sandwiches", "Chef's Specialties Sandwiches")
  ]

  /** The name before the special cases: the stem, underscores as spaces, title-cased. */
  function TitledStem(fileName: string): string
  {
    Title(SpacesForUnderscores(Stem(fileName)))
  }

  /**
   * `clean_category_name`: the first table key, in table order, that occurs
   * in the title-cased stem replaces the whole name by its value; with no
   * such key the title-cased stem is the name.
   */
  method CleanCategoryName(fileName: string) returns (name: string)
    ensures (forall i :: 0 <= i < |Replacements| ==> !IsSubstring(Replacements[i].0, TitledStem(fileName))) ==>
              name == TitledStem(fileName)
    ensures forall i ::
              (&& 0 <= i < |Replacements|
               && IsSubstring(Replacements[i].0, TitledStem(fileName))
               && forall j :: 0 <= j < i ==> !IsSubstring(Replacements[j].0, TitledStem(fileName)))
              ==> name == Replacements[i].1
  {
    name := Stem(fileName);
    name := Title(SpacesForUnderscores(name));
    ghost var titled := name;
    var i := 0;
    while i < |Replacements|
      invariant 0 <= i <= |Replacements|
      invariant name == titled
      invariant forall j :: 0 <= j < i ==> !IsSubstring(Replacements[j].0, titled)
    {
      var (key, value) := Replacements[i];
      if IsSubstring(key, name) {
        name := value;
        break;
      }
      i := i + 1;
    }
  }

  /** A CSV file name gives its base name as the stem. */
  lemma StemOfCsv(base: string)
    requires base != ""
    ensures Stem(base + ".csv") == base
  {
    var s := base + ".csv";
    var i := LastDot(s);
    assert s[|base|] == '.';
    assert s[|base| + 1] == 'c' && s[|base| + 2] == 's' && s[|base| + 3] == 'v';
    assert i == |base|;
    assert s[..i] == base;
  }

  /** A key longer than the name cannot occur in it. */
  lemma LongerNeverOccurs(needle: string, hay: string)
    requires |needle| > |hay|
    ensures !IsSubstring(needle, hay)
  {
  }

  lemma GrabNGoTitled()
    ensures TitledStem("grab_n_go.csv") == "Grab N Go"
  {
    GrabNGoSpaced();
    GrabNGoTitleCase();
  }

  lemma GrabNGoSpaced()
    ensures SpacesForUnderscores(Stem("grab_n_go.csv")) == "grab n go"
  {
    var stem := "grab_n_go";
    StemOfCsv(stem);
    assert stem + ".csv" == "grab_n_go.csv";
  }

  lemma GrabNGoTitleCase()
    ensures Title("grab n go") == "Grab N Go"
  {
    var t := "grab n go";
    TitleFromLength(t, false);
    forall i | 0 <= i < |t| ensures Title(t)[i] == "Grab N Go"[i] {
      TitleAt(t, i);
    }
  }

  lemma GrabNGoKey()
    ensures forall j :: 0 <= j < 6 ==> !IsSubstring(Replacements[j].0, "Grab N Go")
    ensures IsSubstring(Replacements[6].0, "Grab N Go") && Replacements[6].1 == "Grab & Go"
  {
    forall j | 0 <= j < 6 ensures !IsSubstring(Replacements[j].0, "Grab N Go") {
      LongerNeverOccurs(Replacements[j].0, "Grab N Go");
    }
    assert OccursAt("Grab N Go", "Grab N Go", 0);
  }

  /** `grab_n_go.csv` becomes the category "Grab & Go" through the seventh table entry. */
  method GrabAndGoExample() returns (name: string)
    ensures name == "Grab & Go"
  {
    GrabNGoTitled();
    GrabNGoKey();
    name := CleanCategoryName("grab_n_go.csv");
  }

  // ---------------------------------------------------------------------------
  // Modifier groups.

  /** A modifier record as decoded from the spreadsheet's JSON (`price` may be null). */
  datatype RawModifier = RawModifier(modifierId: string, name: string, price: Option<int>)

  /** A group record as decoded; `required` may be absent. */
  datatype RawGroup = RawGroup(groupName: string, required: Option<bool>, modifiers: seq<RawModifier>)

  const ChooseUpTo: string := "Choose Up To "

  /** The pattern `Choose Up To (\d+)` matches at position p. */
  predicate ChooseUpToAt(name: string, p: int)
  {
    OccursAt(ChooseUpTo, name, p) && p + |ChooseUpTo| < |name| && IsDigit(name[p + |ChooseUpTo|])
  }

  /** The leftmost match position at or after p. */
  function FirstChooseUpTo(name: string, p: nat): (r: Option<nat>)
    ensures r.Some? ==> p <= r.value && ChooseUpToAt(name, r.value)
    ensures r.Some? ==> forall q :: p <= q < r.value ==> !ChooseUpToAt(name, q)
    ensures r.None? ==> forall q :: p <= q ==> !ChooseUpToAt(name, q)
    decreases |name| - p
  {
    if p >= |name| then None
    else if ChooseUpToAt(name, p) then Some(p)
    else FirstChooseUpTo(name, p + 1)
  }

  /** The longest run of digits starting at k (what the greedy `\d+` captures). */
  function DigitRun(s: string, k: nat): (r: string)
    requires k <= |s|
    ensures k + |r| <= |s| && r == s[k..k + |r|]
    ensures forall i :: 0 <= i < |r| ==> IsDigit(r[i])
    ensures k + |r| == |s| || !IsDigit(s[k + |r|])
    decreases |s| - k
  {
    if k < |s| && IsDigit(s[k]) then [s[k]] + DigitRun(s, k + 1) else []
  }

  /** `int()` of a decimal digit string. */
  function DecimalValue(ds: string): nat
  {
    if |ds| == 0 then 0
    else
      var d := ds[|ds| - 1] as int - '0' as int;
      DecimalValue(ds[..|ds| - 1]) * 10 + (if 0 <= d <= 9 then d else 0)
  }

  /** The `max_selections` a group name asks for, if it states one. */
  function MaxSelections(name: string): Option<nat>
  {
    match FirstChooseUpTo(name, 0)
    case None => None
    case Some(p) => Some(DecimalValue(DigitRun(name, p + |ChooseUpTo|)))
  }

  /**
   * A limit is present exactly when `Choose Up To ` followed by a digit occurs
   * in the name, and it is the value of the digit run after the leftmost such
   * occurrence.
   */
  lemma MaxSelectionsSpec(name: string)
    ensures MaxSelections(name).Some? <==> exists p :: ChooseUpToAt(name, p)
    ensures forall p :: ChooseUpToAt(name, p) && (forall q :: 0 <= q < p ==> !ChooseUpToAt(name, q)) ==>
              MaxSelections(name) == Some(DecimalValue(DigitRun(name, p + |ChooseUpTo|)))
  {
    var r := FirstChooseUpTo(name, 0);
    if r.Some? {
      assert ChooseUpToAt(name, r.value);
    }
    forall p | ChooseUpToAt(name, p) && (forall q :: 0 <= q < p ==> !ChooseUpToAt(name, q))
      ensures MaxSelections(name) == Some(DecimalValue(DigitRun(name, p + |ChooseUpTo|)))
    {
      assert r.Some?;
      assert !(r.value < p) && !(p < r.value);
      assert r == Some(p);
    }
  }

  /** The converter's `'Choose Up To' in name` test is implied by a match, so it never changes a result. */
  lemma MatchImpliesGuard(name: string)
    ensures MaxSelections(name).Some? ==> IsSubstring("Choose Up To", name)
  {
    var r := FirstChooseUpTo(name, 0);
    if r.Some? {
      var p := r.value;
      assert ChooseUpToAt(name, p);
      assert name[p..p + 12] == ChooseUpTo[..12];
      assert OccursAt("Choose Up To", name, p);
    }
  }

  /** One option per decoded modifier; a null price becomes 0. */
  function OptionOf(m: RawModifier): ModifierOption
  {
    ModifierOption(m.modifierId, m.name, if m.price.Some? then m.price.value else 0)
  }

  function OptionsOf(mods: seq<RawModifier>): seq<ModifierOption>
  {
    seq(|mods|, k requires 0 <= k < |mods| => OptionOf(mods[k]))
  }

  function GroupOf(g: RawGroup): ModifierGroup
  {
    ModifierGroup(g.groupName, MaxSelections(g.groupName), OptionsOf(g.modifiers))
  }

  predicate IsRequired(g: RawGroup)
  {
    g.required == Some(true)
  }

  /** The groups whose required flag is `wanted`, each shaped by `shape`, in decoded order. */
  function Filed<T>(gs: seq<RawGroup>, shape: RawGroup -> T, wanted: bool): seq<T>
  {
    if |gs| == 0 then []
    else Filed(gs[..|gs| - 1], shape, wanted) + (if IsRequired(gs[|gs| - 1]) == wanted then [shape(gs[|gs| - 1])] else [])
  }

  /** Every group, shaped by `shape`, in decoded order. */
  function MapGroups<T>(gs: seq<RawGroup>, shape: RawGroup -> T): seq<T>
  {
    if |gs| == 0 then [] else MapGroups(gs[..|gs| - 1], shape) + [shape(gs[|gs| - 1])]
  }

  /** The required groups, shaped, in their decoded order. */
  function RequiredPart(gs: seq<RawGroup>): seq<ModifierGroup>
  {
    Filed(gs, GroupOf, true)
  }

  /** The optional groups (flag false or absent), shaped, in their decoded order. */
  function OptionalPart(gs: seq<RawGroup>): seq<ModifierGroup>
  {
    Filed(gs, GroupOf, false)
  }

  function Partition(gs: seq<RawGroup>): Modifiers
  {
    Modifiers(RequiredPart(gs), OptionalPart(gs))
  }

  /** The option loop of `parse_modifiers`. */
  method BuildOptions(mods: seq<RawModifier>) returns (options: seq<ModifierOption>)
    ensures |options| == |mods|
    ensures forall k :: 0 <= k < |mods| ==>
              && options[k].id == mods[k].modifierId
              && options[k].name == mods[k].name
              && options[k].price == (if mods[k].price.None? then 0 else mods[k].price.value)
    ensures options == OptionsOf(mods)
  {
    options := [];
    var j := 0;
    while j < |mods|
      invariant 0 <= j <= |mods|
      invariant options == OptionsOf(mods[..j])
    {
      var mod := mods[j];
      var price := if mod.price.Some? then mod.price.value else 0;
      options := options + [ModifierOption(mod.modifierId, mod.name, price)];
      assert OptionsOf(mods[..j + 1]) == OptionsOf(mods[..j]) + [OptionOf(mods[j])];
      j := j + 1;
    }
    assert mods[..j] == mods;
  }

  /**
   * `parse_modifiers`: a missing cell, the literal `[]` and a cell that does
   * not decode all give no groups; otherwise every decoded group is shaped
   * and filed as required or optional.
   */
  method ParseModifiers(cell: Option<string>, decode: string -> Option<seq<RawGroup>>) returns (m: Modifiers)
    ensures cell.None? || cell == Some("[]") ==> m == Modifiers([], [])
    ensures cell.Some? && cell.value != "[]" && decode(cell.value).None? ==> m == Modifiers([], [])
    ensures cell.Some? && cell.value != "[]" && decode(cell.value).Some? ==> m == Partition(decode(cell.value).value)
  {
    if cell.None? || cell.value == "[]" {
      return Modifiers([], []);
    }
    var decoded := decode(cell.value);
    if decoded.None? {
      return Modifiers([], []);
    }
    var groups := decoded.value;
    var required: seq<ModifierGroup> := [];
    var optional: seq<ModifierGroup> := [];
    var i := 0;
    while i < |groups|
      invariant 0 <= i <= |groups|
      invariant required == RequiredPart(groups[..i])
      invariant optional == OptionalPart(groups[..i])
    {
      var group := groups[i];
      var maxSelections: Option<nat> := None;
      if IsSubstring("Choose Up To", group.groupName) {
        maxSelections := MaxSelections(group.groupName);
      } else {
        MatchImpliesGuard(group.groupName);
      }
      var options := BuildOptions(group.modifiers);
      var groupData := ModifierGroup(group.groupName, maxSelections, options);
      assert groupData == GroupOf(group);
      if group.required == Some(true) {
        required := required + [groupData];
      } else {
        optional := optional + [groupData];
      }
      assert groups[..i + 1][..i] == groups[..i];
      i := i + 1;
    }
    assert groups[..i] == groups;
    m := Modifiers(required, optional);
  }

  /** Every decoded group lands in exactly one of the two lists. */
  lemma {:induction false} PartitionSizes(gs: seq<RawGroup>)
    ensures |RequiredPart(gs)| + |OptionalPart(gs)| == |gs|
  {
    if |gs| > 0 {
      PartitionSizes(gs[..|gs| - 1]);
    }
  }

  /** Every decoded group, shaped, in decoded order. */
  function Shaped(gs: seq<RawGroup>): seq<ModifierGroup>
  {
    MapGroups(gs, GroupOf)
  }

  /** Filing by the flag splits the shaped groups without losing or repeating any. */
  lemma {:induction false} FiledPermutes<T>(gs: seq<RawGroup>, shape: RawGroup -> T)
    ensures multiset(Filed(gs, shape, true) + Filed(gs, shape, false)) == multiset(MapGroups(gs, shape))
  {
    if |gs| > 0 {
      var n := |gs| - 1;
      var front := gs[..n];
      FiledPermutes(front, shape);
      SplitStep(Filed(front, shape, true), Filed(front, shape, false), MapGroups(front, shape),
                shape(gs[n]), IsRequired(gs[n]));
    }
  }

  /** Filing one more element on the chosen side keeps the split a permutation of the whole. */
  lemma SplitStep<T>(req: seq<T>, opt: seq<T>, all: seq<T>, x: T, toReq: bool)
    requires multiset(req + opt) == multiset(all)
    ensures multiset((if toReq then req + [x] else req) + (if toReq then opt else opt + [x])) == multiset(all + [x])
  {
    if toReq {
      assert req + [x] + opt == req + ([x] + opt);
    } else {
      assert req + (opt + [x]) == (req + opt) + [x];
    }
  }

  /** The two lists together hold the shaped groups, each as often as it was decoded. */
  lemma PartitionPermutes(gs: seq<RawGroup>)
    ensures multiset(RequiredPart(gs) + OptionalPart(gs)) == multiset(Shaped(gs))
  {
    FiledPermutes(gs, GroupOf);
  }

  /** Filing is done group by group, so each list keeps the decoded order. */
  lemma {:induction false} PartitionAppend(a: seq<RawGroup>, b: seq<RawGroup>)
    ensures RequiredPart(a + b) == RequiredPart(a) + RequiredPart(b)
    ensures OptionalPart(a + b) == OptionalPart(a) + OptionalPart(b)
  {
    if |b| == 0 {
      assert a + b == a;
    } else {
      var b' := b[..|b| - 1];
      assert (a + b)[..|a + b| - 1] == a + b';
      PartitionAppend(a, b');
    }
  }
}
