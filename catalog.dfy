/**
 * The region catalog of `stateConfig.ts`: the four map colours, the 51-entry table from
 * state name to postal abbreviation (in the object's insertion order, which is the order
 * `Object.keys` and `Object.entries` report), and the two lookups that fall back to their
 * input.
 */
module Catalog {
  import opened Wrappers
  import Lists

  const DefaultColor := "#FFFFFF"
  const SelectedColor := "#81c784"
  const HoverColor := "#a5d6a7"
  const CompletedColor := "#E0E0E0"

  const AlabamaToKentucky: seq<(string, string)> := [
    ("Alabama", "AL"),
    ("Alaska", "AK"),
    ("Arizona", "AZ"),
    ("Arkansas", "AR"),
    ("California", "CA"),
    ("Colorado", "CO"),
    ("Connecticut", "CT"),
    ("Delaware", "DE"),
    ("Florida", "FL"),
    ("Georgia", "GA"),
    ("Hawaii", "HI"),
    ("Idaho", "ID"),
    ("Illinois", "IL"),
    ("Indiana", "IN"),
    ("Iowa", "IA"),
    ("Kansas", "KS"),
    ("Kentucky", "KY")
  ]

  const LouisianaToNorthDakota: seq<(string, string)> := [
    ("Louisiana", "LA"),
    ("Maine", "ME"),
    ("Maryland", "MD"),
    ("Massachusetts", "MA"),
    ("Michigan", "MI"),
    ("Minnesota", "MN"),
    ("Mississippi", "MS"),
    ("Missouri", "MO"),
    ("Montana", "MT"),
    ("Nebraska", "NE"),
    ("Nevada", "NV"),
    ("New Hampshire", "NH"),
    ("New Jersey", "NJ"),
    ("New Mexico", "NM"),
    ("New York", "NY"),
    ("North Carolina", "NC"),
    ("North Dakota", "ND")
  ]

  const OhioToDistrictOfColumbia: seq<(string, string)> := [
    ("Ohio", "OH"),
    ("Oklahoma", "OK"),
    ("Oregon", "OR"),
    ("Pennsylvania", "PA"),
    ("Rhode Island", "RI"),
    ("South Carolina", "SC"),
    ("South Dakota", "SD"),
    ("Tennessee", "TN"),
    ("Texas", "TX"),
    ("Utah", "UT"),
    ("Vermont", "VT"),
    ("Virginia", "VA"),
    ("Washington", "WA"),
    ("West Virginia", "WV"),
    ("Wisconsin", "WI"),
    ("Wyoming", "WY"),
    ("District of Columbia", "DC")
  ]

  /**
   * `STATE_CONFIG.stateAbbreviations` as (name, abbreviation) pairs in insertion order.
   * The table is written as three displays joined, which lets the verifier look up an
   * entry by a symbolic index.
   */
  const Table: seq<(string, string)> := AlabamaToKentucky + LouisianaToNorthDakota + OhioToDistrictOfColumbia

  /** The first components of a list of pairs, in order. */
  function Firsts(t: seq<(string, string)>): (r: seq<string>)
    ensures |r| == |t| && forall i :: 0 <= i < |t| ==> r[i] == t[i].0
  {
    if t == [] then [] else [t[0].0] + Firsts(t[1..])
  }

  /** The second components of a list of pairs, in order. */
  function Seconds(t: seq<(string, string)>): (r: seq<string>)
    ensures |r| == |t| && forall i :: 0 <= i < |t| ==> r[i] == t[i].1
  {
    if t == [] then [] else [t[0].1] + Seconds(t[1..])
  }

  /** `Object.keys(STATE_CONFIG.stateAbbreviations)`: the names, in table order. */
  const Names: seq<string> := Firsts(Table)

  /** The abbreviations, in table order. */
  const AbbreviationList: seq<string> := Seconds(Table)

  /** Property access `table[key]` on an object literal: the value of the entry named `key`. */
  function Lookup(t: seq<(string, string)>, key: string): (r: Option<string>)
    ensures r.Some? ==> (key, r.value) in t
  {
    if t == [] then None
    else if t[0].0 == key then Some(t[0].1)
    else Lookup(t[1..], key)
  }

  /** `Object.entries(table).find(([_, v]) => v === value)?.[0]`: the name of the first entry holding `value`. */
  function FindNameOf(t: seq<(string, string)>, value: string): (r: Option<string>)
    ensures r.Some? ==> (r.value, value) in t
  {
    if t == [] then None
    else if t[0].1 == value then Some(t[0].0)
    else FindNameOf(t[1..], value)
  }

  predicate NamesDistinctIn(t: seq<(string, string)>) {
    forall i, j :: 0 <= i < j < |t| ==> t[i].0 != t[j].0
  }

  /** In a table whose names are distinct, looking up an entry's name gives its value. */
  lemma {:induction false} LookupEntry(t: seq<(string, string)>, i: int)
    requires NamesDistinctIn(t) && 0 <= i < |t|
    ensures Lookup(t, t[i].0) == Some(t[i].1)
  {
    if i > 0 {
      assert t[0].0 != t[i].0;
      assert t[1..][i - 1] == t[i];
      LookupEntry(t[1..], i - 1);
    }
  }

  /** Looking up a name no entry has gives nothing. */
  lemma {:induction false} LookupMissing(t: seq<(string, string)>, key: string)
    requires forall i :: 0 <= i < |t| ==> t[i].0 != key
    ensures Lookup(t, key) == None
  {
    if t != [] {
      LookupMissing(t[1..], key);
    }
  }

  /** The search returns the name of the first entry holding the value. */
  lemma {:induction false} FindFirst(t: seq<(string, string)>, value: string, i: int)
    requires 0 <= i < |t| && t[i].1 == value
    requires forall k :: 0 <= k < i ==> t[k].1 != value
    ensures FindNameOf(t, value) == Some(t[i].0)
  {
    if i > 0 {
      assert t[1..][i - 1] == t[i];
      FindFirst(t[1..], value, i - 1);
    }
  }

  /** The search finds nothing when no entry holds the value. */
  lemma {:induction false} FindMissing(t: seq<(string, string)>, value: string)
    requires forall i :: 0 <= i < |t| ==> t[i].1 != value
    ensures FindNameOf(t, value) == None
  {
    if t != [] {
      FindMissing(t[1..], value);
    }
  }

  /** `getStateAbbreviation`: the table entry, or the input itself when there is none (or it is empty). */
  function GetStateAbbreviation(stateName: string): (abbreviation: string)
    ensures abbreviation == stateName || (stateName, abbreviation) in Table
  {
    match Lookup(Table, stateName)
    case Some(entry) => if entry != "" then entry else stateName
    case None => stateName
  }

  /** `getStateNameFromAbbreviation`: the first name with that abbreviation, or the input itself. */
  function GetStateNameFromAbbreviation(abbreviation: string): (stateName: string)
    ensures stateName == abbreviation || (stateName, abbreviation) in Table
  {
    match FindNameOf(Table, abbreviation)
    case Some(name) => if name != "" then name else abbreviation
    case None => abbreviation
  }

  lemma NamesDistinctRows0(i: int, j: int)
    requires 0 <= i < 5 && i < j < |Table|
    ensures Table[i].0 != Table[j].0
  {
  }

  lemma NamesDistinctRows1(i: int, j: int)
    requires 5 <= i < 11 && i < j < |Table|
    ensures Table[i].0 != Table[j].0
  {
  }

  lemma NamesDistinctRows2(i: int, j: int)
    requires 11 <= i < 17 && i < j < |Table|
    ensures Table[i].0 != Table[j].0
  {
  }

  lemma NamesDistinctRows3(i: int, j: int)
    requires 17 <= i < 24 && i < j < |Table|
    ensures Table[i].0 != Table[j].0
  {
  }

  lemma NamesDistinctRows4(i: int, j: int)
    requires 24 <= i < 33 && i < j < |Table|
    ensures Table[i].0 != Table[j].0
  {
  }

  lemma NamesDistinctRows5(i: int, j: int)
    requires 33 <= i < 51 && i < j < |Table|
    ensures Table[i].0 != Table[j].0
  {
  }

  lemma AbbreviationsDistinctRows0(i: int, j: int)
    requires 0 <= i < 5 && i < j < |Table|
    ensures Table[i].1 != Table[j].1
  {
  }

  lemma AbbreviationsDistinctRows1(i: int, j: int)
    requires 5 <= i < 11 && i < j < |Table|
    ensures Table[i].1 != Table[j].1
  {
  }

  lemma AbbreviationsDistinctRows2(i: int, j: int)
    requires 11 <= i < 17 && i < j < |Table|
    ensures Table[i].1 != Table[j].1
  {
  }

  lemma AbbreviationsDistinctRows3(i: int, j: int)
    requires 17 <= i < 24 && i < j < |Table|
    ensures Table[i].1 != Table[j].1
  {
  }

  lemma AbbreviationsDistinctRows4(i: int, j: int)
    requires 24 <= i < 33 && i < j < |Table|
    ensures Table[i].1 != Table[j].1
  {
  }

  lemma AbbreviationsDistinctRows5(i: int, j: int)
    requires 33 <= i < 51 && i < j < |Table|
    ensures Table[i].1 != Table[j].1
  {
  }

  /** The 51 names of the table are pairwise distinct. */
  lemma NamesDistinct()
    ensures NamesDistinctIn(Table)
  {
    forall i, j | 0 <= i < j < |Table| ensures Table[i].0 != Table[j].0 {
      if i < 5 {
        NamesDistinctRows0(i, j);
      } else if i < 11 {
        NamesDistinctRows1(i, j);
      } else if i < 17 {
        NamesDistinctRows2(i, j);
      } else if i < 24 {
        NamesDistinctRows3(i, j);
      } else if i < 33 {
        NamesDistinctRows4(i, j);
      } else {
        NamesDistinctRows5(i, j);
      }
    }
  }

  /** The 51 abbreviations of the table are pairwise distinct. */
  lemma AbbreviationsDistinct()
    ensures forall i, j :: 0 <= i < j < |Table| ==> Table[i].1 != Table[j].1
  {
    forall i, j | 0 <= i < j < |Table| ensures Table[i].1 != Table[j].1 {
      if i < 5 {
        AbbreviationsDistinctRows0(i, j);
      } else if i < 11 {
        AbbreviationsDistinctRows1(i, j);
      } else if i < 17 {
        AbbreviationsDistinctRows2(i, j);
      } else if i < 24 {
        AbbreviationsDistinctRows3(i, j);
      } else if i < 33 {
        AbbreviationsDistinctRows4(i, j);
      } else {
        AbbreviationsDistinctRows5(i, j);
      }
    }
  }

  predicate IsTwoCapitals(s: string) {
    |s| == 2 && 'A' <= s[0] <= 'Z' && 'A' <= s[1] <= 'Z'
  }

  lemma AbbreviationShapeLow(i: int)
    requires 0 <= i < 25
    ensures IsTwoCapitals(Table[i].1)
  {
  }

  lemma AbbreviationShapeHigh(i: int)
    requires 25 <= i < |Table|
    ensures IsTwoCapitals(Table[i].1)
  {
  }

  /** Every abbreviation is two upper-case ASCII letters. */
  lemma AbbreviationShape(i: int)
    requires 0 <= i < |Table|
    ensures IsTwoCapitals(Table[i].1)
  {
    if i < 25 {
      AbbreviationShapeLow(i);
    } else {
      AbbreviationShapeHigh(i);
    }
  }

  /** The catalog: 51 distinct names, the District of Columbia among them, with distinct abbreviations. */
  lemma CatalogShape()
    ensures |Names| == 51 && Lists.NoDuplicates(Names)
    ensures "District of Columbia" in Names
    ensures |AbbreviationList| == 51 && Lists.NoDuplicates(AbbreviationList)
  {
    NamesDistinct();
    AbbreviationsDistinct();
    assert Names[50] == "District of Columbia";
  }

  /** For a catalog name, the table's abbreviation. */
  lemma AbbreviationOfCatalogName(i: int)
    requires 0 <= i < |Table|
    ensures GetStateAbbreviation(Table[i].0) == Table[i].1
  {
    NamesDistinct();
    LookupEntry(Table, i);
    AbbreviationShape(i);
  }

  /** For anything that is not a catalog name, the input unchanged. */
  lemma AbbreviationOfUnknownName(stateName: string)
    requires stateName !in Names
    ensures GetStateAbbreviation(stateName) == stateName
  {
    forall i | 0 <= i < |Table| ensures Table[i].0 != stateName {
      assert Names[i] == Table[i].0;
    }
    LookupMissing(Table, stateName);
  }

  /** The name of the first entry carrying the abbreviation. */
  lemma NameOfFirstAbbreviation(abbreviation: string, i: int)
    requires 0 <= i < |Table| && Table[i].1 == abbreviation
    requires forall k :: 0 <= k < i ==> Table[k].1 != abbreviation
    ensures GetStateNameFromAbbreviation(abbreviation) == Table[i].0
  {
    FindFirst(Table, abbreviation, i);
    assert Names[i] == Table[i].0;
    NameNonEmpty(i);
  }

  lemma NameNonEmpty(i: int)
    requires 0 <= i < |Table|
    ensures Table[i].0 != ""
  {
  }

  /** For anything that is no abbreviation of the table, the input unchanged. */
  lemma NameOfUnknownAbbreviation(abbreviation: string)
    requires abbreviation !in AbbreviationList
    ensures GetStateNameFromAbbreviation(abbreviation) == abbreviation
  {
    forall i | 0 <= i < |Table| ensures Table[i].1 != abbreviation {
      assert AbbreviationList[i] == Table[i].1;
    }
    FindMissing(Table, abbreviation);
  }

  /** Name to abbreviation and back gives the name, for every catalog name. */
  lemma NameRoundTrip(stateName: string)
    requires stateName in Names
    ensures GetStateNameFromAbbreviation(GetStateAbbreviation(stateName)) == stateName
  {
    var i :| 0 <= i < |Names| && Names[i] == stateName;
    AbbreviationOfCatalogName(i);
    AbbreviationsDistinct();
    NameOfFirstAbbreviation(Table[i].1, i);
  }

  /** Abbreviation to name and back gives the abbreviation, for every abbreviation of the table. */
  lemma AbbreviationRoundTrip(abbreviation: string)
    requires abbreviation in AbbreviationList
    ensures GetStateAbbreviation(GetStateNameFromAbbreviation(abbreviation)) == abbreviation
  {
    var i :| 0 <= i < |AbbreviationList| && AbbreviationList[i] == abbreviation;
    AbbreviationsDistinct();
    NameOfFirstAbbreviation(abbreviation, i);
    AbbreviationOfCatalogName(i);
  }
}
