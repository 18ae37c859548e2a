/**
 * The department page: the department's name is turned into a key, the key
 * selects the built-in sample data (only "ops" and "bd" have any), and the
 * page keeps a list of the weekly updates the user has expanded.
 */
module DepartmentView {
  import opened Lists
  import opened Text

  datatype Okr = Okr(id: string, title: string, target: int, current: int, unit: string)

  datatype WeeklyUpdate = WeeklyUpdate(week: string, highlights: seq<string>, lowlights: seq<string>, date: string)

  datatype DepartmentData = DepartmentData(okrs: seq<Okr>, weeklyUpdates: seq<WeeklyUpdate>)

  const OpsData := DepartmentData(
    [ Okr("1", "Reduce processing time", 100, 85, "% improvement"),
      Okr("2", "Increase automation coverage", 90, 72, "% of processes"),
      Okr("3", "Error rate reduction", 95, 88, "% reduction") ],
    [ WeeklyUpdate("Week 23",
        ["Automated 3 new donation processing workflows", "Reduced manual errors by 15%"],
        ["System downtime affected 2 retailers", "Training delayed for new hires"],
        "2024-06-17"),
      WeeklyUpdate("Week 22",
        ["Launched new dashboard for retailers", "Improved API response time by 30%"],
        ["Integration issues with 1 major retailer", "Staff shortage in QA team"],
        "2024-06-10") ])

  const BdData := DepartmentData(
    [ Okr("1", "New retailer onboarding", 25, 18, "retailers"),
      Okr("2", "Revenue per retailer", 15000, 12800, "$ monthly"),
      Okr("3", "Retention rate", 95, 92, "% retained") ],
    [ WeeklyUpdate("Week 23",
        ["Signed 2 new major retailers", "Closed $50K enterprise deal"],
        ["Lost 1 mid-tier client to competitor", "Delayed contract renewal with key partner"],
        "2024-06-17") ])

  /**
   * What a plain-object lookup of the sample table yields: one of its own
   * entries, nothing, or a member every object inherits. The page shows its
   * "No data available" text only for `Missing`; an inherited member is
   * truthy, so the page goes on to render it and fails on its missing `okrs`.
   */
  datatype Lookup = Found(data: DepartmentData) | Missing | Inherited

  /** The sample data table, looked up by key. */
  function MockDataFor(key: string): Lookup {
    if key == "ops" then Found(OpsData)
    else if key == "bd" then Found(BdData)
    else if IsInheritedKey(key) then Inherited
    else Missing
  }

  /** The key: lower case, the first space removed, then the first "business development" shortened to "bd". */
  function DepartmentKey(departmentName: string): string {
    ReplaceFirst(ReplaceFirst(ToLower(departmentName), " ", ""), "business development", "bd")
  }

  /** What the page finds for a department name; `Missing` is the "No data available" page. */
  function DataFor(departmentName: string): Lookup {
    MockDataFor(DepartmentKey(departmentName))
  }

  /**
   * Data is found exactly for the names whose key is "ops" or "bd", and it is
   * that key's table; an inherited member is found exactly for the keys
   * "constructor" and "__proto__"; every other name gets the no-data page.
   */
  lemma {:induction false} DataForSpec(departmentName: string)
    ensures DataFor(departmentName).Found? <==> DepartmentKey(departmentName) in {"ops", "bd"}
    ensures DepartmentKey(departmentName) == "ops" ==> DataFor(departmentName) == Found(OpsData)
    ensures DepartmentKey(departmentName) == "bd" ==> DataFor(departmentName) == Found(BdData)
    ensures DataFor(departmentName) == Inherited <==> DepartmentKey(departmentName) in {"constructor", "__proto__"}
    ensures DataFor(departmentName) == Missing <==>
              DepartmentKey(departmentName) !in {"ops", "bd", "constructor", "__proto__"}
  {
  }

  /** Lower-casing keeps spaces where they are and makes no new ones. */
  lemma {:induction false} ToLowerSpaces(name: string)
    ensures forall j :: 0 <= j < |name| ==> (ToLower(name)[j] == ' ' <==> name[j] == ' ')
  {
  }

  /**
   * For a name with at most one space the shortening never applies: once the
   * space is gone, "business development" cannot occur, so the key is just
   * the lower-cased name without its space.
   */
  lemma {:induction false} OneSpaceKey(departmentName: string)
    requires forall j, k :: 0 <= j < k < |departmentName| && departmentName[j] == ' ' ==> departmentName[k] != ' '
    ensures DepartmentKey(departmentName) == ReplaceFirst(ToLower(departmentName), " ", "")
    ensures ' ' !in DepartmentKey(departmentName)
  {
    var lower := ToLower(departmentName);
    ToLowerSpaces(departmentName);
    DeleteOnlyChar(lower, ' ');
    var once := ReplaceFirst(lower, " ", "");
    assert "business development"[8] == ' ';
    ReplaceFirstMissingChar(once, "business development", "bd", ' ');
  }

  /** A name without spaces keys as its lower-cased self. */
  lemma {:induction false} NoSpaceKey(departmentName: string)
    requires ' ' !in departmentName
    ensures DepartmentKey(departmentName) == ToLower(departmentName)
  {
    var lower := ToLower(departmentName);
    ToLowerSpaces(departmentName);
    assert ' ' !in lower;
    ReplaceFirstMissingChar(lower, " ", "", ' ');
    assert "business development"[8] == ' ';
    ReplaceFirstMissingChar(lower, "business development", "bd", ' ');
  }

  /** The label of the department list is lower-cased and loses its one space, so it is not shortened. */
  lemma {:induction false} BusinessDevelopmentKey(departmentName: string)
    requires departmentName == "Business Development"
    ensures DepartmentKey(departmentName) == "businessdevelopment"
    ensures DataFor(departmentName) == Missing
  {
    LowerLabel(departmentName);
    var lower := ToLower(departmentName);
    var once := ReplaceFirst(lower, " ", "");
    DropInnerSpace(lower);
    SpaceInLongName();
    ReplaceFirstMissingChar(once, "business development", "bd", ' ');
  }

  lemma {:induction false} LowerLabel(departmentName: string)
    requires departmentName == "Business Development"
    ensures ToLower(departmentName) == "business development"
  {
  }

  lemma {:induction false} SpaceInLongName()
    ensures ' ' in "business development"
  {
    assert "business development"[8] == ' ';
  }

  lemma {:induction false} DropInnerSpace(lower: string)
    requires lower == "business development"
    ensures ReplaceFirst(lower, " ", "") == "businessdevelopment"
    ensures ' ' !in "businessdevelopment"
  {
    ReplaceFirstCharAt(lower, ' ', "", 8);
    assert lower[..8] == "business" && lower[9..] == "development";
    JoinedWords();
  }

  lemma {:induction false} JoinedWords()
    ensures "business" + "" + "development" == "businessdevelopment"
    ensures ' ' !in "businessdevelopment"
  {
  }

  /** The one-word labels of the department list key as their lower-cased selves, none of which is in the table. */
  lemma {:induction false} OneWordLabelsHaveNoData(departmentName: string)
    requires departmentName == "Operations" || departmentName == "Marketing" || departmentName == "Product"
    ensures DepartmentKey(departmentName) == ToLower(departmentName)
    ensures DepartmentKey(departmentName) in {"operations", "marketing", "product"}
    ensures DataFor(departmentName) == Missing
  {
    LowerOneWordLabel(departmentName);
    NoSpaceKey(departmentName);
  }

  lemma {:induction false} LowerOneWordLabel(departmentName: string)
    requires departmentName == "Operations" || departmentName == "Marketing" || departmentName == "Product"
    ensures ' ' !in departmentName
    ensures ToLower(departmentName) in {"operations", "marketing", "product"}
  {
    if departmentName == "Operations" {
      assert ToLower(departmentName) == "operations";
    } else if departmentName == "Marketing" {
      assert ToLower(departmentName) == "marketing";
    } else {
      assert ToLower(departmentName) == "product";
    }
  }

  /** A leading space is the one removed, so the inner space survives and the shortening applies. */
  lemma {:induction false} LeadingSpaceReachesBd(departmentName: string)
    requires departmentName == " Business Development"
    ensures DepartmentKey(departmentName) == "bd"
    ensures DataFor(departmentName) == Found(BdData)
  {
    DropLeadingSpace(departmentName);
    LongNameShortens("business development");
  }

  lemma {:induction false} DropLeadingSpace(departmentName: string)
    requires departmentName == " Business Development"
    ensures ReplaceFirst(ToLower(departmentName), " ", "") == "business development"
  {
    var lower := ToLower(departmentName);
    assert lower == " business development";
    ReplaceFirstCharAt(lower, ' ', "", 0);
  }

  lemma {:induction false} LongNameShortens(once: string)
    requires once == "business development"
    ensures ReplaceFirst(once, "business development", "bd") == "bd"
  {
    assert OccursAt(once, "business development", 0);
    assert once[0..|once|] == once;
  }

  /** The names "Constructor" and "__proto__" key as members every object inherits, which the page does not treat as missing. */
  lemma {:induction false} InheritedNamesAreNotMissing(departmentName: string)
    requires departmentName == "Constructor" || departmentName == "__proto__"
    ensures DepartmentKey(departmentName) == ToLower(departmentName)
    ensures DataFor(departmentName) == Inherited
  {
    LowerInheritedName(departmentName);
    NoSpaceKey(departmentName);
  }

  lemma {:induction false} LowerInheritedName(departmentName: string)
    requires departmentName == "Constructor" || departmentName == "__proto__"
    ensures ' ' !in departmentName
    ensures IsInheritedKey(ToLower(departmentName))
  {
    if departmentName == "Constructor" {
      assert ToLower(departmentName) == "constructor";
    } else {
      assert ToLower(departmentName) == "__proto__";
    }
  }

  // ---------------------------------------------------------------------------
  // Expanded weeks
  // ---------------------------------------------------------------------------

  /** A week is its own key when weeks are removed from the list. */
  function WeekKey(w: string): string {
    w
  }

  /** `toggleWeek`: a listed week is taken out (every copy), an unlisted one is added at the end. */
  function Toggled(weeks: seq<string>, week: string): seq<string> {
    if week in weeks then RemoveAll(weeks, week, WeekKey) else weeks + [week]
  }

  /** Toggling flips whether the week is listed and leaves every other week as it was. */
  lemma {:induction false} ToggledMembership(weeks: seq<string>, week: string)
    ensures week in Toggled(weeks, week) <==> week !in weeks
    ensures forall w :: w != week ==> (w in Toggled(weeks, week) <==> w in weeks)
  {
  }

  /** Toggling a week in and out again gives back the list. */
  lemma {:induction false} ToggleTwiceRestores(weeks: seq<string>, week: string)
    requires week !in weeks
    ensures Toggled(Toggled(weeks, week), week) == weeks
  {
    assert week in weeks + [week];
    RemoveAllUndoesAppend(weeks, week, WeekKey);
  }

  /** Toggling a listed week out and in again moves it to the end. */
  lemma {:induction false} ToggleTwiceMovesToEnd(weeks: seq<string>, week: string)
    requires week in weeks
    ensures Toggled(Toggled(weeks, week), week) == RemoveAll(weeks, week, WeekKey) + [week]
  {
  }

  /** Toggling keeps the list free of repeats. */
  lemma {:induction false} ToggledDistinct(weeks: seq<string>, week: string)
    requires Distinct(weeks)
    ensures Distinct(Toggled(weeks, week))
  {
    if week in weeks {
      FilterDistinct(weeks, KeyIsNot(week, WeekKey));
    } else {
      var r := weeks + [week];
      forall i, j | 0 <= i < j < |r| ensures r[i] != r[j] {
        if j == |weeks| {
          assert r[i] == weeks[i];
        }
      }
    }
  }

  /** The weeks expanded when the page opens. */
  const InitialExpandedWeeks: seq<string> := ["Week 23"]

  /** The page's list of expanded weekly updates. */
  class ExpandedWeeks {
    var expandedWeeks: seq<string>

    predicate Valid()
      reads this
    {
      Distinct(expandedWeeks)
    }

    /** The page opens with "Week 23", the latest week of both sample tables, expanded. */
    constructor()
      ensures expandedWeeks == InitialExpandedWeeks && expandedWeeks == ["Week 23"] && Valid()
    {
      expandedWeeks := InitialExpandedWeeks;
    }

    method ToggleWeek(week: string)
      requires Valid()
      modifies this
      ensures expandedWeeks == Toggled(old(expandedWeeks), week)
      ensures Valid()
    {
      ToggledDistinct(expandedWeeks, week);
      if week in expandedWeeks {
        expandedWeeks := RemoveAll(expandedWeeks, week, WeekKey);
      } else {
        expandedWeeks := expandedWeeks + [week];
      }
    }
  }

  /**
   * The week expanded at first is the first weekly update of each sample
   * table, so whichever table the page shows opens with its latest week
   * expanded and no other.
   */
  lemma {:induction false} FirstWeekExpanded()
    ensures InitialExpandedWeeks == [OpsData.weeklyUpdates[0].week]
    ensures InitialExpandedWeeks == [BdData.weeklyUpdates[0].week]
  {
  }
}
