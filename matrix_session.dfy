/**
 * The state of one matrix screen and the handlers that update it: the weights,
 * the cities picked for comparison, salary, nationality, whether the profile list
 * is open, and the counter that remounts that list after a save.
 */
module MatrixSession {
  import opened Wrappers
  import opened JsObject
  import opened MatrixScoring
  import opened MatrixRanking

  /** `list.filter(c => c !== name)` */
  function Without(list: seq<string>, name: string): (r: seq<string>)
    ensures |r| <= |list|
  {
    if list == [] then []
    else (if list[0] == name then [] else [list[0]]) + Without(list[1..], name)
  }

  /** `list.includes(name) ? list.filter(c => c !== name) : [...list, name]` */
  function Toggle(list: seq<string>, name: string): seq<string> {
    if name in list then Without(list, name) else list + [name]
  }

  predicate NoDuplicates(list: seq<string>) {
    forall i, j :: 0 <= i < j < |list| ==> list[i] != list[j]
  }

  // ----- Properties of the selection toggle -----

  /** Filtering drops exactly the name. */
  lemma {:induction false} WithoutMembers(list: seq<string>, name: string, c: string)
    ensures c in Without(list, name) <==> c in list && c != name
  {
    if list != [] {
      WithoutMembers(list[1..], name, c);
      assert list == [list[0]] + list[1..];
    }
  }

  /** Filtering out a name that is not there changes nothing. */
  lemma {:induction false} WithoutAbsent(list: seq<string>, name: string)
    requires name !in list
    ensures Without(list, name) == list
  {
    if list != [] {
      WithoutAbsent(list[1..], name);
      assert list == [list[0]] + list[1..];
    }
  }

  /** Filtering keeps a list free of duplicates. */
  lemma {:induction false} WithoutNoDuplicates(list: seq<string>, name: string)
    requires NoDuplicates(list)
    ensures NoDuplicates(Without(list, name))
  {
    if list != [] {
      var rest := Without(list[1..], name);
      WithoutNoDuplicates(list[1..], name);
      WithoutMembers(list[1..], name, list[0]);
      assert list[0] !in list[1..] by {
        forall i | 0 <= i < |list[1..]| ensures list[1..][i] != list[0] {
          assert list[1..][i] == list[i + 1];
        }
      }
    }
  }

  /** After a toggle a name other than the toggled one is selected as before; the toggled one flips. */
  lemma ToggleMembers(list: seq<string>, name: string, c: string)
    ensures c != name ==> (c in Toggle(list, name) <==> c in list)
    ensures name in Toggle(list, name) <==> name !in list
  {
    WithoutMembers(list, name, c);
    WithoutMembers(list, name, name);
  }

  /** A selection without duplicates stays without duplicates. */
  lemma ToggleNoDuplicates(list: seq<string>, name: string)
    requires NoDuplicates(list)
    ensures NoDuplicates(Toggle(list, name))
  {
    if name in list {
      WithoutNoDuplicates(list, name);
    }
  }

  /** Selecting a city and deselecting it again restores the selection. */
  lemma ToggleTwiceAbsent(list: seq<string>, name: string)
    requires name !in list
    ensures Toggle(Toggle(list, name), name) == list
  {
    assert name in list + [name];
    WithoutAbsent(list, name);
    WithoutAppend(list, [name], name);
  }

  /**
   * Deselecting a selected city and selecting it again moves it to the end of the
   * selection: the selection has the same members, but not necessarily the same order.
   */
  lemma ToggleTwicePresent(list: seq<string>, name: string)
    requires name in list
    ensures Toggle(Toggle(list, name), name) == Without(list, name) + [name]
  {
    WithoutMembers(list, name, name);
  }

  /** Toggling twice always restores the set of selected names. */
  lemma ToggleTwiceSameMembers(list: seq<string>, name: string, c: string)
    ensures c in Toggle(Toggle(list, name), name) <==> c in list
  {
    ToggleMembers(list, name, c);
    ToggleMembers(Toggle(list, name), name, c);
  }

  /** Toggling "a" twice in ["a", "b"] gives ["b", "a"]: the order is not restored. */
  lemma ToggleTwiceReorders()
    ensures Toggle(Toggle(["a", "b"], "a"), "a") == ["b", "a"]
  {
    ToggleTwicePresent(["a", "b"], "a");
    assert ["a", "b"][1..] == ["b"];
    assert Without(["b"], "a") == ["b"];
  }

  lemma {:induction false} WithoutAppend(a: seq<string>, b: seq<string>, name: string)
    ensures Without(a + b, name) == Without(a, name) + Without(b, name)
  {
    if a == [] {
      assert a + b == b;
    } else {
      assert (a + b)[0] == a[0] && (a + b)[1..] == a[1..] + b;
      WithoutAppend(a[1..], b, name);
    }
  }

  /**
   * Setting the weight of `key` to `value` in `before`, when `key` already has a weight
   * there, moves every city's exact score by the change in that weight times the
   * criterion's adjusted raw score and super factor, over 10.
   */
  ghost predicate ScoresMoveWith(table: MultiplierTable, nationality: string, before: Record, key: string, value: real) {
    Get(before, key).Some? ==>
      forall criteria: map<string, real> ::
        UnroundedScore(table, nationality, criteria, Put(before, key, value))
          - UnroundedScore(table, nationality, criteria, before)
        == (value - Get(before, key).value)
           * (RawScore(criteria, key) * NationalityMultiplier(table, nationality, key) * SuperFactor(key)) / 10.0
  }

  /** A weight change on weights without a repeated key moves the scores as above. */
  lemma WeightChangeMovesScores(table: MultiplierTable, nationality: string, before: Record, key: string, value: real)
    requires DistinctKeys(before)
    ensures ScoresMoveWith(table, nationality, before, key, value)
  {
    if Get(before, key).Some? {
      forall criteria: map<string, real> {
        WeightSensitivity(table, nationality, criteria, before, key, value, Get(before, key).value);
      }
    }
  }

  /** The screen's state, with the initial values of its `useState` hooks. */
  class Session {
    var weights: Record
    var selectedCities: seq<string>
    var salary: real
    var nationality: string
    var showProfiles: bool
    var refreshKey: int

    /** Every criterion has at most one weight, so a lookup sees the one the user set. */
    predicate Valid()
      reads this
    {
      DistinctKeys(weights)
    }

    constructor()
      ensures Valid()
      ensures weights == DefaultWeights && selectedCities == [] && salary == 100000.0
      ensures nationality == DefaultNationality && !showProfiles && refreshKey == 0
    {
      weights := DefaultWeights;
      selectedCities := [];
      salary := 100000.0;
      nationality := DefaultNationality;
      showProfiles := false;
      refreshKey := 0;
      DefaultWeightsDistinct();
    }

    /**
     * `handleWeightChange`: sets one weight, every other field as before. When the key
     * already had a weight, every city's exact score moves by the change in that weight
     * times the criterion's adjusted raw score and super factor, over 10.
     */
    method HandleWeightChange(key: string, value: real)
      requires Valid()
      modifies this
      ensures Valid()
      ensures weights == Put(old(weights), key, value)
      ensures Get(weights, key) == Some(value)
      ensures forall k :: k != key ==> Get(weights, k) == Get(old(weights), k)
      ensures selectedCities == old(selectedCities) && salary == old(salary) && nationality == old(nationality)
      ensures showProfiles == old(showProfiles) && refreshKey == old(refreshKey)
      ensures ScoresMoveWith(NationalityMultipliers, nationality, old(weights), key, value)
    {
      forall k {
        PutGet(weights, key, value, k);
      }
      PutDistinct(weights, key, value);
      weights := Put(weights, key, value);
      WeightChangeMovesScores(NationalityMultipliers, nationality, old(weights), key, value);
    }

    /** `handleCityToggle`: deselects a selected city, otherwise selects it last. */
    method HandleCityToggle(cityName: string)
      requires Valid()
      modifies this
      ensures Valid()
      ensures selectedCities == Toggle(old(selectedCities), cityName)
      ensures weights == old(weights) && salary == old(salary) && nationality == old(nationality)
      ensures showProfiles == old(showProfiles) && refreshKey == old(refreshKey)
    {
      selectedCities := Toggle(selectedCities, cityName);
    }

    /**
     * `handleLoadProfile`: takes the profile's weights, cities and salary, takes its
     * nationality only when one is given and non-empty, and closes the profile list.
     */
    method HandleLoadProfile(newWeights: Record, newCities: seq<string>, newSalary: real,
                             newNationality: Option<string>)
      requires DistinctKeys(newWeights)
      modifies this
      ensures Valid()
      ensures weights == newWeights && selectedCities == newCities && salary == newSalary
      ensures newNationality.Some? && newNationality.value != "" ==> nationality == newNationality.value
      ensures newNationality.None? || newNationality.value == "" ==> nationality == old(nationality)
      ensures !showProfiles && refreshKey == old(refreshKey)
    {
      weights := newWeights;
      selectedCities := newCities;
      salary := newSalary;
      if newNationality.Some? && newNationality.value != "" {
        nationality := newNationality.value;
      }
      showProfiles := false;
    }

    /** `handleProfileSaved`: bumps the key that remounts the profile list. */
    method HandleProfileSaved()
      requires Valid()
      modifies this
      ensures Valid()
      ensures refreshKey == old(refreshKey) + 1
      ensures weights == old(weights) && selectedCities == old(selectedCities) && salary == old(salary)
      ensures nationality == old(nationality) && showProfiles == old(showProfiles)
    {
      refreshKey := refreshKey + 1;
    }

    /** The "My Profiles" button: opens or closes the profile list. */
    method ToggleShowProfiles()
      requires Valid()
      modifies this
      ensures Valid()
      ensures showProfiles == !old(showProfiles)
      ensures weights == old(weights) && selectedCities == old(selectedCities) && salary == old(salary)
      ensures nationality == old(nationality) && refreshKey == old(refreshKey)
    {
      showProfiles := !showProfiles;
    }

    /** The nationality selector. */
    method SetNationality(value: string)
      requires Valid()
      modifies this
      ensures Valid()
      ensures nationality == value
      ensures weights == old(weights) && selectedCities == old(selectedCities) && salary == old(salary)
      ensures showProfiles == old(showProfiles) && refreshKey == old(refreshKey)
    {
      nationality := value;
    }

    /** The salary field: `parseInt` of its text, kept as a number. */
    method SetSalary(value: int)
      requires Valid()
      modifies this
      ensures Valid()
      ensures salary == value as real
      ensures weights == old(weights) && selectedCities == old(selectedCities) && nationality == old(nationality)
      ensures showProfiles == old(showProfiles) && refreshKey == old(refreshKey)
    {
      salary := value as real;
    }

    /**
     * The ranking shown for the current weights and nationality, and the comparison
     * panel: the ranked cities whose names are selected, best first.
     */
    method View(catalog: seq<City>) returns (ranked: seq<RankedCity>, compared: seq<RankedCity>)
      ensures ranked == SortByScore(ScoreAll(NationalityMultipliers, nationality, weights, catalog))
      ensures SortedByScore(ranked) && SortedByScore(compared)
      ensures compared == Compared(ranked, selectedCities)
      ensures forall c :: c in compared <==> c in ranked && c.name in selectedCities
    {
      ranked := RankCities(NationalityMultipliers, nationality, weights, catalog);
      compared := Compared(ranked, selectedCities);
      ComparedSorted(ranked, selectedCities);
      forall c ensures c in compared <==> c in ranked && c.name in selectedCities {
        ComparedMembers(ranked, selectedCities, c);
      }
    }
  }
}
