/** The fixed cat catalog and the sidebar's selector: the age table, the list of
    cats ordered oldest first (ties alphabetical), the radio labels
    "<name> (<age> years old)" and how a label is turned back into a name. */
module Catalog {
  import opened Text

  /** One row of the age table: age in years and its human equivalent. */
  datatype CatAge = CatAge(actual: nat, humanEquivalent: nat)

  /** The year the ages are computed against (age = this year - adoption year). */
  const CurrentYear: nat := 2025

  const CatAges: map<string, CatAge> := map[
    "Molly" := CatAge(CurrentYear - 2015, 56),
    "Ciko" := CatAge(CurrentYear - 2015, 56),
    "Bushy" := CatAge(CurrentYear - 2020, 36),
    "Lily" := CatAge(CurrentYear - 2015, 56),
    "Oyen" := CatAge(CurrentYear - 2020, 36),
    "Snowy" := CatAge(CurrentYear - 2014, 60),
    "Kuni" := CatAge(CurrentYear - 2014, 60)
  ]

  /** The cat names in the order the personality table lists them. */
  const CatNames: seq<string> := ["Molly", "Ciko", "Bushy", "Lily", "Oyen", "Snowy", "Kuni"]

  /** The cat the session starts with. */
  const DefaultCat: string := "Molly"

  /** An element of the selector list: a name with its actual age. */
  datatype CatEntry = CatEntry(name: string, age: nat)

  /** The sort key `(-age, name)`: `x` sorts strictly before `y`. */
  predicate Precedes(x: CatEntry, y: CatEntry)
  {
    x.age > y.age || (x.age == y.age && Less(x.name, y.name))
  }

  /** `x` may stand before `y` in the sorted list. */
  predicate NotAfter(x: CatEntry, y: CatEntry)
  {
    !Precedes(y, x)
  }

  predicate Sorted(s: seq<CatEntry>)
  {
    forall i, j :: 0 <= i < j < |s| ==> NotAfter(s[i], s[j])
  }

  lemma PrecedesTransitive(x: CatEntry, y: CatEntry, z: CatEntry)
    requires Precedes(x, y) && Precedes(y, z)
    ensures Precedes(x, z)
  {
    if x.age == y.age == z.age {
      LessTransitive(x.name, y.name, z.name);
    }
  }

  lemma PrecedesIrreflexive(x: CatEntry)
    ensures !Precedes(x, x)
  {
    LessIrreflexive(x.name);
  }

  /** Two different entries are always ordered one way or the other. */
  lemma PrecedesTotal(x: CatEntry, y: CatEntry)
    requires x != y
    ensures Precedes(x, y) || Precedes(y, x)
  {
    if x.age == y.age {
      LessTotal(x.name, y.name);
    }
  }

  lemma NotAfterTransitive(x: CatEntry, y: CatEntry, z: CatEntry)
    requires NotAfter(x, y) && NotAfter(y, z)
    ensures NotAfter(x, z)
  {
    if Precedes(z, x) {
      if x == y {
      } else {
        PrecedesTotal(x, y);
        PrecedesTransitive(z, x, y);
      }
    }
  }

  lemma NotAfterAntisymmetric(x: CatEntry, y: CatEntry)
    requires NotAfter(x, y) && NotAfter(y, x)
    ensures x == y
  {
    if x != y {
      PrecedesTotal(x, y);
    }
  }

  /** The list the selector starts from: each catalog cat with its actual age,
      in table order. */
  function CatalogEntries(): (r: seq<CatEntry>)
    ensures |r| == |CatNames|
  {
    seq(|CatNames|, i requires 0 <= i < |CatNames| => CatEntry(CatNames[i], CatAges[CatNames[i]].actual))
  }

  /** The selector order spelled out: 11-year-olds, then 10, then 5, each group alphabetical. */
  const DisplayOrder: seq<CatEntry> := [
    CatEntry("Kuni", 11), CatEntry("Snowy", 11),
    CatEntry("Ciko", 10), CatEntry("Lily", 10), CatEntry("Molly", 10),
    CatEntry("Bushy", 5), CatEntry("Oyen", 5)
  ]

  /** The radio label of a cat: `f"{name} ({age} years old)"`. */
  function Label(name: string, age: nat): string
  {
    name + " (" + Decimal(age) + " years old)"
  }

  /** The labels of a list of entries, in the same order. */
  function Labels(s: seq<CatEntry>): (r: seq<string>)
    ensures |r| == |s|
    ensures forall i :: 0 <= i < |s| ==> r[i] == Label(s[i].name, s[i].age)
  {
    seq(|s|, i requires 0 <= i < |s| => Label(s[i].name, s[i].age))
  }

  /** The name a radio label stands for: `label.split(" (")[0]`. */
  function ParseName(option: string): string
  {
    BeforeFirst(option, " (")
  }

  /** Parsing the label of a name that does not contain the separator gives the name back. */
  lemma ParseLabel(name: string, age: nat)
    requires !Contains(name, " (")
    ensures ParseName(Label(name, age)) == name
  {
    var s := Label(name, age);
    assert OccursAt(s, " (", |name|) by {
      assert s[|name|..|name| + 2] == " (";
    }
    forall k: nat | k < |name|
      ensures !OccursAt(s, " (", k)
    {
      if k + 2 <= |name| {
        assert s[k..k + 2] == name[k..k + 2];
        assert !OccursAt(name, " (", k);
      } else {
        assert s[k + 1] == ' ';
      }
    }
    assert ParseName(s) == s[..|name|] == name;
  }

  /** A name without an opening parenthesis cannot contain the separator. */
  lemma NoParenNoSeparator(name: string)
    requires forall i :: 0 <= i < |name| ==> name[i] != '('
    ensures !Contains(name, " (")
  {
    forall k: nat | k <= |name|
      ensures !OccursAt(name, " (", k)
    {
      if k + 2 <= |name| {
        assert name[k..k + 2][1] == name[k + 1];
      }
    }
  }

  lemma CatalogNamesParse(name: string)
    requires name in CatAges
    ensures !Contains(name, " (")
  {
    NoParenNoSeparator(name);
  }

  /** The label shown for the session's current cat (line 113 of the app). */
  function CurrentOption(cat: string): string
    requires cat in CatAges
  {
    Label(cat, CatAges[cat].actual)
  }

  /** Exchanges two elements of the array. */
  method Swap(a: array<CatEntry>, i: int, j: int)
    requires 0 <= i < j < a.Length
    modifies a
    ensures a[..] == old(a[..])[i := old(a[j])][j := old(a[i])]
    ensures multiset(a[..]) == old(multiset(a[..]))
  {
    a[i], a[j] := a[j], a[i];
  }

  /** `cat_list.sort(key=lambda x: (-x[1], x[0]))`: sorts in place by age descending,
      then name ascending. */
  method SortCats(a: array<CatEntry>)
    modifies a
    ensures Sorted(a[..])
    ensures multiset(a[..]) == old(multiset(a[..]))
  {
    var i := 0;
    while i < a.Length
      invariant 0 <= i <= a.Length
      invariant Sorted(a[..i])
      invariant multiset(a[..]) == old(multiset(a[..]))
    {
      var j := i;
      while j > 0 && Precedes(a[j], a[j - 1])
        invariant 0 <= j <= i
        invariant multiset(a[..]) == old(multiset(a[..]))
        invariant forall p, q :: 0 <= p < q <= i && p != j && q != j ==> NotAfter(a[p], a[q])
        invariant forall q :: j < q <= i ==> Precedes(a[j], a[q])
      {
        Swap(a, j - 1, j);
        j := j - 1;
      }
      forall p, q | 0 <= p < q <= i
        ensures NotAfter(a[p], a[q])
      {
        if q == j {
          if p < j - 1 {
            NotAfterTransitive(a[p], a[j - 1], a[j]);
          }
        } else if p == j {
          PrecedesIrreflexive(a[p]);
          if Precedes(a[q], a[p]) {
            PrecedesTransitive(a[p], a[q], a[p]);
          }
        }
      }
      i := i + 1;
    }
    assert a[..] == a[..a.Length];
  }

  /** The head of a sorted list stands before every element of it. */
  lemma SortedHeadFirst(s: seq<CatEntry>, x: CatEntry)
    requires Sorted(s) && x in s
    ensures NotAfter(s[0], x)
  {
    var k :| 0 <= k < |s| && s[k] == x;
    if k == 0 {
      PrecedesIrreflexive(x);
    }
  }

  lemma MultisetTail(s: seq<CatEntry>)
    requires |s| > 0
    ensures multiset(s[1..]) == multiset(s) - multiset{s[0]}
  {
    assert s == [s[0]] + s[1..];
  }

  lemma SortedTail(s: seq<CatEntry>)
    requires Sorted(s) && |s| > 0
    ensures Sorted(s[1..])
  {
    forall i, j | 0 <= i < j < |s| - 1
      ensures NotAfter(s[1..][i], s[1..][j])
    {
      assert s[1..][i] == s[i + 1] && s[1..][j] == s[j + 1];
    }
  }

  /** Sorted lists with the same elements start with the same element. */
  lemma SortedSameHead(s: seq<CatEntry>, t: seq<CatEntry>)
    requires Sorted(s) && Sorted(t) && |s| > 0 && |t| > 0
    requires multiset(s) == multiset(t)
    ensures s[0] == t[0]
  {
    assert s[0] in multiset(t) && t[0] in multiset(s);
    SortedHeadFirst(t, s[0]);
    SortedHeadFirst(s, t[0]);
    NotAfterAntisymmetric(s[0], t[0]);
  }

  /** A sorted list is determined by its elements: two sorted arrangements of the
      same multiset are equal. */
  lemma {:induction false} SortedUnique(s: seq<CatEntry>, t: seq<CatEntry>)
    requires Sorted(s) && Sorted(t)
    requires multiset(s) == multiset(t)
    ensures s == t
    decreases |s|
  {
    assert |s| == |multiset(s)| == |multiset(t)| == |t|;
    if |s| > 0 {
      SortedSameHead(s, t);
      MultisetTail(s);
      MultisetTail(t);
      SortedTail(s);
      SortedTail(t);
      SortedUnique(s[1..], t[1..]);
      assert s == [s[0]] + s[1..] && t == [t[0]] + t[1..];
    }
  }

  /** A list whose neighbours are in order is sorted. */
  lemma {:induction false} SortedFromNeighbours(s: seq<CatEntry>)
    requires forall i :: 0 < i < |s| ==> NotAfter(s[i - 1], s[i])
    ensures Sorted(s)
  {
    if |s| > 1 {
      SortedFromNeighbours(s[1..]);
      forall j | 0 < j < |s|
        ensures NotAfter(s[0], s[j])
      {
        if j > 1 {
          assert NotAfter(s[1..][0], s[1..][j - 1]);
          NotAfterTransitive(s[0], s[1], s[j]);
        }
      }
    }
  }

  lemma CatalogEntriesSpelledOut()
    ensures CatalogEntries() == [
      CatEntry("Molly", 10), CatEntry("Ciko", 10), CatEntry("Bushy", 5), CatEntry("Lily", 10),
      CatEntry("Oyen", 5), CatEntry("Snowy", 11), CatEntry("Kuni", 11)
    ]
  {
  }

  lemma DisplayOrderSorted()
    ensures Sorted(DisplayOrder)
  {
    assert Less("Kuni", "Snowy") && Less("Ciko", "Lily") && Less("Lily", "Molly") && Less("Bushy", "Oyen");
    SortedFromNeighbours(DisplayOrder);
  }

  predicate Distinct(s: seq<CatEntry>)
  {
    forall i, j :: 0 <= i < j < |s| ==> s[i] != s[j]
  }

  /** In a list without repeats every element occurs once. */
  lemma {:induction false} DistinctCount(s: seq<CatEntry>, x: CatEntry)
    requires Distinct(s)
    ensures multiset(s)[x] == if x in s then 1 else 0
  {
    if |s| > 0 {
      DistinctCount(s[1..], x);
      assert s == [s[0]] + s[1..];
      assert multiset(s) == multiset{s[0]} + multiset(s[1..]);
    }
  }

  /** Two lists without repeats that hold the same entries are permutations of each other. */
  lemma SameMembersPermuted(s: seq<CatEntry>, t: seq<CatEntry>)
    requires Distinct(s) && Distinct(t)
    requires forall x :: x in s <==> x in t
    ensures multiset(s) == multiset(t)
  {
    forall x
      ensures multiset(s)[x] == multiset(t)[x]
    {
      DistinctCount(s, x);
      DistinctCount(t, x);
    }
  }

  lemma DisplayOrderPermutesCatalog()
    ensures multiset(DisplayOrder) == multiset(CatalogEntries())
  {
    CatalogEntriesSpelledOut();
    assert Distinct(DisplayOrder);
    assert Distinct(CatalogEntries());
    assert forall x :: x in DisplayOrder <==> x in CatalogEntries();
    SameMembersPermuted(DisplayOrder, CatalogEntries());
  }

  /** The spelled-out order is the catalog, sorted. */
  lemma DisplayOrderSortsCatalog()
    ensures Sorted(DisplayOrder)
    ensures multiset(DisplayOrder) == multiset(CatalogEntries())
  {
    DisplayOrderSorted();
    DisplayOrderPermutesCatalog();
  }

  /** Any sorted arrangement of the catalog is the spelled-out order: Kuni, Snowy, Ciko,
      Lily, Molly, Bushy, Oyen. */
  lemma SortedCatalogIsDisplayOrder(s: seq<CatEntry>)
    requires Sorted(s) && multiset(s) == multiset(CatalogEntries())
    ensures s == DisplayOrder
  {
    DisplayOrderSortsCatalog();
    SortedUnique(s, DisplayOrder);
  }

  /** The selector's radio options, in display order. */
  function DisplayOptions(): seq<string>
  {
    Labels(DisplayOrder)
  }

  /** Lines 99-102 of the app: one (name, actual age) entry per cat, in table order. */
  method CollectCatList() returns (list: seq<CatEntry>)
    ensures list == CatalogEntries()
  {
    list := [];
    for n := 0 to |CatNames|
      invariant |list| == n
      invariant forall j :: 0 <= j < n ==> list[j] == CatalogEntries()[j]
    {
      list := list + [CatEntry(CatNames[n], CatAges[CatNames[n]].actual)];
    }
  }

  /** Lines 108-110 of the app: one radio label per entry, in list order. */
  method FormatOptions(catList: seq<CatEntry>) returns (options: seq<string>)
    ensures options == Labels(catList)
  {
    options := [];
    for n := 0 to |catList|
      invariant |options| == n
      invariant forall j :: 0 <= j < n ==> options[j] == Label(catList[j].name, catList[j].age)
    {
      options := options + [Label(catList[n].name, catList[n].age)];
    }
  }

  /** Lines 99-110 of the app: collect the entries, sort them in place, format the labels. */
  method BuildCatOptions() returns (catList: seq<CatEntry>, options: seq<string>)
    ensures Sorted(catList) && multiset(catList) == multiset(CatalogEntries())
    ensures catList == DisplayOrder
    ensures options == Labels(catList)
  {
    var list := CollectCatList();
    var a := new CatEntry[|list|](i requires 0 <= i < |list| => list[i]);
    assert a[..] == list;
    SortCats(a);
    catList := a[..];
    SortedCatalogIsDisplayOrder(catList);
    options := FormatOptions(catList);
  }

  /** Lines 113-114 of the app: the position of the current cat's label among the options,
      or 0 when the label is not among them. */
  method CurrentIndex(options: seq<string>, cat: string) returns (k: nat)
    requires cat in CatAges
    ensures CurrentOption(cat) in options ==> k < |options| && options[k] == CurrentOption(cat)
    ensures CurrentOption(cat) in options ==> forall j :: 0 <= j < k ==> options[j] != CurrentOption(cat)
    ensures CurrentOption(cat) !in options ==> k == 0
    ensures |options| > 0 ==> k < |options|
  {
    var current := CurrentOption(cat);
    k := 0;
    while k < |options| && options[k] != current
      invariant k <= |options|
      invariant forall j :: 0 <= j < k ==> options[j] != current
    {
      k := k + 1;
    }
    if k == |options| {
      k := 0;
    }
  }

  /** Every catalog cat stands in the spelled-out order with its actual age. */
  lemma CatalogEntryListed(cat: string)
    requires cat in CatAges
    ensures CatEntry(cat, CatAges[cat].actual) in DisplayOrder
  {
    assert cat in CatAges.Keys;
    assert CatAges.Keys == {"Molly", "Ciko", "Bushy", "Lily", "Oyen", "Snowy", "Kuni"};
  }

  /** Every catalog cat's label is among the display options and parses back to that
      cat; so the selector always opens on the session's cat. */
  lemma CurrentOptionListed(cat: string)
    requires cat in CatAges
    ensures CurrentOption(cat) in DisplayOptions()
    ensures ParseName(CurrentOption(cat)) == cat
  {
    CatalogEntryListed(cat);
    var j :| 0 <= j < |DisplayOrder| && DisplayOrder[j] == CatEntry(cat, CatAges[cat].actual);
    assert DisplayOptions()[j] == CurrentOption(cat);
    CatalogNamesParse(cat);
    ParseLabel(cat, CatAges[cat].actual);
  }

  /** Whatever option the user picks, its parsed name is a catalog cat. */
  lemma OptionsNameCatalogCats(option: string)
    requires option in DisplayOptions()
    ensures ParseName(option) in CatAges
    ensures option == CurrentOption(ParseName(option))
  {
    var j :| 0 <= j < |DisplayOrder| && DisplayOptions()[j] == option;
    var e := DisplayOrder[j];
    assert e.name in CatAges && CatAges[e.name].actual == e.age;
    CatalogNamesParse(e.name);
    ParseLabel(e.name, e.age);
  }
}
