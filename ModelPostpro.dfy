/** The standard-name rules of the model post-processing driver: the lookup of a name's
    family, the test for a requested temperature field, the names under which the
    observation locations are ported to the model, and the renaming once in-situ temperature
    has been derived from potential temperature and salinity. */
module ModelPostpro {
  import opened Wrappers

  const Temperature := "sea_water_temperature"
  const PotentialTemperature := "sea_water_potential_temperature"
  const Salinity := "sea_water_practical_salinity"

  /** The families of names that stand for the same model field. */
  const StandardNameFamilies: seq<seq<string>> :=
    [[Temperature, PotentialTemperature, "temperature"],
     [Salinity, "sea_water_salinity", "salinity"]]

  // ---------------------------------------------------------------- families

  /** The first row from `row` on that holds `name`, or none. */
  function FamilyFrom(families: seq<seq<string>>, name: string, row: nat): (r: seq<string>)
    requires row <= |families|
    decreases |families| - row
  {
    if row == |families| then []
    else if name in families[row] then families[row]
    else FamilyFrom(families, name, row + 1)
  }

  /** The family of a name: the first row that holds it, or empty. */
  function Family(families: seq<seq<string>>, name: string): seq<string> {
    FamilyFrom(families, name, 0)
  }

  /** Row `k` is the first row that holds `name`. */
  predicate FirstHolding(families: seq<seq<string>>, name: string, k: nat) {
    k < |families| && name in families[k] && forall j :: 0 <= j < k ==> name !in families[j]
  }

  lemma {:induction false} FamilyFromFirst(families: seq<seq<string>>, name: string, row: nat)
    requires row <= |families|
    requires forall j :: 0 <= j < row ==> name !in families[j]
    ensures FamilyFrom(families, name, row) == [] <==> forall j :: row <= j < |families| ==> name !in families[j]
    ensures FamilyFrom(families, name, row) != [] ==>
      exists k: nat :: FirstHolding(families, name, k) && FamilyFrom(families, name, row) == families[k]
    decreases |families| - row
  {
    if row < |families| {
      if name in families[row] {
        assert FirstHolding(families, name, row);
      } else {
        FamilyFromFirst(families, name, row + 1);
      }
    }
  }

  /** The family is empty exactly when no row holds the name, and otherwise it is the first
      row that does. */
  lemma {:induction false} FamilyFirst(families: seq<seq<string>>, name: string)
    ensures Family(families, name) == [] <==> forall j :: 0 <= j < |families| ==> name !in families[j]
    ensures Family(families, name) != [] ==>
      exists k: nat :: FirstHolding(families, name, k) && Family(families, name) == families[k]
    ensures Family(families, name) != [] ==> name in Family(families, name)
  {
    FamilyFromFirst(families, name, 0);
  }

  /** The lookup loop, which stops at the first row holding the name. */
  method FindFamily(families: seq<seq<string>>, name: string) returns (family: seq<string>)
    ensures family == Family(families, name)
  {
    family := [];
    var row := 0;
    while row < |families|
      invariant row <= |families|
      invariant FamilyFrom(families, name, 0) == FamilyFrom(families, name, row)
    {
      if name in families[row] {
        family := families[row];
        break;
      }
      row := row + 1;
    }
  }

  /** Every name of the two families finds its own family; any other name finds none. */
  lemma {:induction false} StandardFamilies(name: string)
    ensures name in StandardNameFamilies[0] ==> Family(StandardNameFamilies, name) == StandardNameFamilies[0]
    ensures name in StandardNameFamilies[1] && name !in StandardNameFamilies[0] ==>
      Family(StandardNameFamilies, name) == StandardNameFamilies[1]
    ensures name !in StandardNameFamilies[0] && name !in StandardNameFamilies[1] ==>
      Family(StandardNameFamilies, name) == []
  {
    assert FamilyFrom(StandardNameFamilies, name, 2) == [];
    assert FamilyFrom(StandardNameFamilies, name, 1) ==
      if name in StandardNameFamilies[1] then StandardNameFamilies[1] else [];
  }

  // ---------------------------------------------------------------- temperature presence

  /** Some requested name belongs to the temperature family. */
  predicate TemperaturePresent(families: seq<seq<string>>, names: seq<string>) {
    exists i :: 0 <= i < |names| && Temperature in Family(families, names[i])
  }

  /** The presence loop, which stops at the first name of the temperature family. */
  method TemperaturePresence(families: seq<seq<string>>, names: seq<string>) returns (present: bool)
    ensures present <==> TemperaturePresent(families, names)
  {
    present := false;
    var i := 0;
    while i < |names|
      invariant i <= |names|
      invariant forall j :: 0 <= j < i ==> Temperature !in Family(families, names[j])
    {
      var family := FindFamily(families, names[i]);
      if Temperature in family {
        present := true;
        break;
      }
      i := i + 1;
    }
  }

  // ---------------------------------------------------------------- porting

  /** The name under which an observed variable is ported: in-situ temperature is compared
      with the model's potential temperature. */
  function PortedName(insitu: string): (r: string)
    ensures r != Temperature
    ensures insitu != Temperature ==> r == insitu
  {
    if insitu == Temperature then PotentialTemperature else insitu
  }

  /** The first name of `family` that the probe records. */
  function FirstShared(family: seq<string>, probe: seq<string>): (r: Option<string>)
    ensures r.None? <==> forall x :: x in family ==> x !in probe
    ensures r.Some? ==> r.value in family && r.value in probe
  {
    if family == [] then None
    else if family[0] in probe then Some(family[0])
    else FirstShared(family[1..], probe)
  }

  /** The in-situ name and the ported name of the variable of `family` for one probe: a name
      of the family that the probe records, or in-situ temperature for the salinity family
      when temperature is requested (the salinity field is then still needed to derive
      temperature), or nothing. A probe is passed over exactly when it records no name of the
      family and salinity is not forced, and a ported name is never in-situ temperature. */
  function Port(family: seq<string>, probe: seq<string>, temperature: bool): (r: Option<(string, string)>)
    ensures r.None? <==> (forall x :: x in family ==> x !in probe) && !(Salinity in family && temperature)
    ensures r.Some? && (exists x :: x in family && x in probe) ==>
      r.value.0 in family && r.value.0 in probe && r.value.1 == PortedName(r.value.0)
    ensures r.Some? && (forall x :: x in family ==> x !in probe) ==> r.value == (Temperature, Salinity)
    ensures r.Some? ==> r.value.1 != Temperature
  {
    var shared := FirstShared(family, probe);
    if shared.Some? then Some((shared.value, PortedName(shared.value)))
    else if Salinity in family && temperature then Some((Temperature, Salinity))
    else None
  }

  /** The ported names of one variable over all the probes, in probe order. */
  function ProbeNames(family: seq<string>, probes: seq<seq<string>>, temperature: bool): (r: seq<string>)
  {
    if probes == [] then []
    else
      var before := ProbeNames(family, probes[..|probes| - 1], temperature);
      var p := Port(family, probes[|probes| - 1], temperature);
      if p.Some? then before + [p.value.1] else before
  }

  /** The probe is ported to `x`. */
  predicate PortsProbe(family: seq<string>, probe: seq<string>, temperature: bool, x: string) {
    Port(family, probe, temperature).Some? && Port(family, probe, temperature).value.1 == x
  }

  /** A name is among the ported names of a variable exactly when some probe ports to it. */
  lemma {:induction false} ProbeNamesMembers(family: seq<string>, probes: seq<seq<string>>, temperature: bool, x: string)
    ensures x in ProbeNames(family, probes, temperature) <==>
      exists p :: 0 <= p < |probes| && PortsProbe(family, probes[p], temperature, x)
  {
    if probes != [] {
      var init := probes[..|probes| - 1];
      ProbeNamesMembers(family, init, temperature, x);
      assert forall p :: 0 <= p < |init| ==> init[p] == probes[p];
      var q := Port(family, probes[|probes| - 1], temperature);
      if x in ProbeNames(family, probes, temperature) && x !in ProbeNames(family, init, temperature) {
        assert PortsProbe(family, probes[|probes| - 1], temperature, x);
      }
    }
  }

  /** `name` appended unless already listed. */
  function Added(list: seq<string>, name: string): (r: seq<string>)
  {
    if name in list then list else list + [name]
  }

  /** `names` added one by one. */
  function AddedAll(list: seq<string>, names: seq<string>): (r: seq<string>)
  {
    if names == [] then list else Added(AddedAll(list, names[..|names| - 1]), names[|names| - 1])
  }

  predicate Distinct(list: seq<string>) {
    forall i, j :: 0 <= i < j < |list| ==> list[i] != list[j]
  }

  /** Adding keeps the list free of repetitions, keeps what it held in front and holds
      exactly the old names and the added ones. */
  lemma {:induction false} AddedAllMembers(list: seq<string>, names: seq<string>)
    requires Distinct(list)
    ensures Distinct(AddedAll(list, names))
    ensures list <= AddedAll(list, names)
    ensures forall x :: x in AddedAll(list, names) <==> x in list || x in names
  {
    if names != [] {
      var init := names[..|names| - 1];
      AddedAllMembers(list, init);
      assert names == init + [names[|names| - 1]];
    }
  }

  /** The ported names of the requested variables, in order, without repetitions. */
  function PortedList(families: seq<seq<string>>, names: seq<string>, probes: seq<seq<string>>, temperature: bool): (r: seq<string>)
  {
    if names == [] then []
    else
      AddedAll(PortedList(families, names[..|names| - 1], probes, temperature),
               ProbeNames(Family(families, names[|names| - 1]), probes, temperature))
  }

  /** The variable `i` ports some probe to `x`. */
  predicate PortsTo(families: seq<seq<string>>, names: seq<string>, probes: seq<seq<string>>, temperature: bool, i: nat, x: string) {
    i < |names| && x in ProbeNames(Family(families, names[i]), probes, temperature)
  }

  /** The list holds no name twice and holds exactly the names some variable ports a probe
      to. */
  lemma {:induction false} PortedListMembers(families: seq<seq<string>>, names: seq<string>, probes: seq<seq<string>>, temperature: bool)
    ensures Distinct(PortedList(families, names, probes, temperature))
    ensures forall x :: x in PortedList(families, names, probes, temperature) <==>
      exists i :: PortsTo(families, names, probes, temperature, i, x)
  {
    if names != [] {
      var init := names[..|names| - 1];
      PortedListMembers(families, init, probes, temperature);
      var last := ProbeNames(Family(families, names[|names| - 1]), probes, temperature);
      AddedAllMembers(PortedList(families, init, probes, temperature), last);
      forall x
        ensures x in PortedList(families, names, probes, temperature) <==>
          exists i :: PortsTo(families, names, probes, temperature, i, x)
      {
        if x in last {
          assert PortsTo(families, names, probes, temperature, |names| - 1, x);
        }
        if exists i :: PortsTo(families, names, probes, temperature, i, x) {
          var i: nat :| PortsTo(families, names, probes, temperature, i, x);
          if i < |init| {
            assert init[i] == names[i];
            assert PortsTo(families, init, probes, temperature, i, x);
          }
        }
        if x in PortedList(families, init, probes, temperature) {
          var i: nat :| PortsTo(families, init, probes, temperature, i, x);
          assert init[i] == names[i];
          assert PortsTo(families, names, probes, temperature, i, x);
        }
      }
    }
  }

  /** No probe is ported to in-situ temperature. */
  lemma {:induction false} ProbeNamesNoTemperature(family: seq<string>, probes: seq<seq<string>>, temperature: bool)
    ensures Temperature !in ProbeNames(family, probes, temperature)
  {
    if probes != [] {
      ProbeNamesNoTemperature(family, probes[..|probes| - 1], temperature);
    }
  }

  /** No ported name is in-situ temperature. */
  lemma {:induction false} PortedListNoTemperature(families: seq<seq<string>>, names: seq<string>, probes: seq<seq<string>>, temperature: bool)
    ensures Temperature !in PortedList(families, names, probes, temperature)
  {
    if names != [] {
      var init := names[..|names| - 1];
      PortedListNoTemperature(families, init, probes, temperature);
      PortedListMembers(families, init, probes, temperature);
      ProbeNamesNoTemperature(Family(families, names[|names| - 1]), probes, temperature);
      AddedAllMembers(PortedList(families, init, probes, temperature),
                      ProbeNames(Family(families, names[|names| - 1]), probes, temperature));
    }
  }

  /** The loop over the probes of one variable. */
  method PortVariable(list: seq<string>, family: seq<string>, probes: seq<seq<string>>, temperature: bool) returns (out: seq<string>)
    ensures out == AddedAll(list, ProbeNames(family, probes, temperature))
  {
    out := list;
    var p := 0;
    while p < |probes|
      invariant p <= |probes|
      invariant out == AddedAll(list, ProbeNames(family, probes[..p], temperature))
    {
      var ported := Port(family, probes[p], temperature);
      assert probes[..p + 1][..p] == probes[..p];
      if ported.Some? {
        var name := ported.value.1;
        assert ProbeNames(family, probes[..p + 1], temperature) == ProbeNames(family, probes[..p], temperature) + [name];
        if name !in out {
          out := out + [name];
        }
      }
      p := p + 1;
    }
    assert probes[..p] == probes;
  }

  /** The names of the fields to build: the ported names when the model datasets are
      concatenated, the requested names otherwise. */
  method PortedStandardNames(families: seq<seq<string>>, names: seq<string>, probes: seq<seq<string>>, concatenate: bool)
    returns (list: seq<string>)
    ensures concatenate ==> list == PortedList(families, names, probes, TemperaturePresent(families, names))
    ensures !concatenate ==> list == names
  {
    if !concatenate {
      return names;
    }
    var temperature := TemperaturePresence(families, names);
    list := [];
    var v := 0;
    while v < |names|
      invariant v <= |names|
      invariant list == PortedList(families, names[..v], probes, temperature)
    {
      var family := FindFamily(families, names[v]);
      assert names[..v + 1][..v] == names[..v];
      list := PortVariable(list, family, probes, temperature);
      v := v + 1;
    }
    assert names[..v] == names;
  }

  // ---------------------------------------------------------------- derived temperature

  /** When both potential temperature and salinity are among the fields, potential
      temperature is replaced by the derived in-situ temperature. */
  function Derived(list: seq<string>): (r: seq<string>)
    ensures |r| == |list|
  {
    if PotentialTemperature in list && Salinity in list then
      seq(|list|, i requires 0 <= i < |list| => if list[i] == PotentialTemperature then Temperature else list[i])
    else list
  }

  /** The renaming leaves every other entry in its place, removes potential temperature when
      salinity is present, and keeps a list free of repetitions when it held no in-situ
      temperature. */
  lemma {:induction false} DerivedNames(list: seq<string>)
    ensures forall i :: 0 <= i < |list| && list[i] != PotentialTemperature ==> Derived(list)[i] == list[i]
    ensures Salinity in list ==> PotentialTemperature !in Derived(list)
    ensures Salinity in list && PotentialTemperature in list ==> Temperature in Derived(list)
    ensures Distinct(list) && Temperature !in list ==> Distinct(Derived(list))
  {
    var r := Derived(list);
    if Salinity in list && PotentialTemperature in list {
      var k :| 0 <= k < |list| && list[k] == PotentialTemperature;
      assert r[k] == Temperature;
    }
  }

  /** The ported fields, once renamed, still name each field once. */
  lemma {:induction false} DerivedPortedDistinct(families: seq<seq<string>>, names: seq<string>, probes: seq<seq<string>>, temperature: bool)
    ensures Distinct(Derived(PortedList(families, names, probes, temperature)))
  {
    PortedListMembers(families, names, probes, temperature);
    PortedListNoTemperature(families, names, probes, temperature);
    DerivedNames(PortedList(families, names, probes, temperature));
  }
}
