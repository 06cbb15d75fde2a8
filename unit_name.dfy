/**
 * Persistence-unit-name resolution, as done by the `(String, Map)` constructor
 * of `EntityManagerFactoryWrapper`: an explicit name, else the system property
 * `jpagraph.unit-name`, else a name inferred from which provider classes can be
 * loaded; then null and empty names are rejected.
 *
 * Class loading is modelled by membership in `present`, the set of class names
 * the class loader can find; reading the system property by its value.
 */
module UnitName {
  import opened Wrappers
  import opened Exceptions

  const SystemPropertyKey: string := "jpagraph.unit-name"
  /** The parameter name reported by both validation errors. */
  const ParamName: string := "pPersistanceUnitName"

  const ObjectDbMarker: string := "com.objectdb.jpa.EMF"
  const EclipseLinkMarker: string := "org.eclipse.persistence.internal.jpa.EntityManagerFactoryImpl"
  const HibernateMarker: string := "org.hibernate.jpa.internal.EntityManagerFactoryImpl"

  const ObjectDbUnit: string := "ObjectDbUnit"
  const EclipseLinkUnit: string := "EclipseLinkUnit"
  const HibernateUnit: string := "HibernateUnit"

  /** The (marker class, unit name) probes in the order the constructor tries them. */
  const ProbeOrder: seq<(string, string)> :=
    [(ObjectDbMarker, ObjectDbUnit), (EclipseLinkMarker, EclipseLinkUnit), (HibernateMarker, HibernateUnit)]

  /** The same probes ranked by priority, the highest first. */
  const ProviderRanking: seq<(string, string)> :=
    [(HibernateMarker, HibernateUnit), (EclipseLinkMarker, EclipseLinkUnit), (ObjectDbMarker, ObjectDbUnit)]

  function Reversed<T>(s: seq<T>): (r: seq<T>)
  {
    if s == [] then [] else Reversed(s[1..]) + [s[0]]
  }

  /** The unit name of the highest-ranked probe whose marker class is present. */
  function FirstPresent(ranking: seq<(string, string)>, present: set<string>): (r: Option<string>)
    ensures r.Some? <==> exists i :: 0 <= i < |ranking| && ranking[i].0 in present
    ensures r.Some? ==> exists i :: 0 <= i < |ranking| && ranking[i].0 in present && ranking[i].1 == r.value
                                      && forall j :: 0 <= j < i ==> ranking[j].0 !in present
  {
    if ranking == [] then None
    else if ranking[0].0 in present then Some(ranking[0].1)
    else
      var r := FirstPresent(ranking[1..], present);
      assert forall i :: 1 <= i < |ranking| ==> ranking[i] == ranking[1..][i - 1];
      r
  }

  /**
   * What a run of probes leaves in a variable that starts as `current` when
   * every probe that succeeds overwrites it.
   */
  function LastPresent(probes: seq<(string, string)>, present: set<string>, current: Option<string>): Option<string>
  {
    if probes == [] then current
    else LastPresent(probes[1..], present, if probes[0].0 in present then Some(probes[0].1) else current)
  }

  lemma {:induction false} FirstPresentAppend(ranking: seq<(string, string)>, last: (string, string), present: set<string>)
    ensures FirstPresent(ranking + [last], present)
         == if FirstPresent(ranking, present).Some? then FirstPresent(ranking, present)
            else if last.0 in present then Some(last.1) else None
  {
    if ranking != [] {
      assert (ranking + [last])[1..] == ranking[1..] + [last];
      FirstPresentAppend(ranking[1..], last, present);
    }
  }

  /** Overwriting on every success is the same as taking the first success in reverse order. */
  lemma {:induction false} LastPresentIsFirstOfReversed(probes: seq<(string, string)>, present: set<string>, current: Option<string>)
    ensures LastPresent(probes, present, current)
         == if FirstPresent(Reversed(probes), present).Some? then FirstPresent(Reversed(probes), present) else current
  {
    if probes != [] {
      var next := if probes[0].0 in present then Some(probes[0].1) else current;
      LastPresentIsFirstOfReversed(probes[1..], present, next);
      FirstPresentAppend(Reversed(probes[1..]), probes[0], present);
    }
  }

  /** The ranking is the probe order read backwards. */
  lemma RankingIsReversedProbeOrder()
    ensures Reversed(ProbeOrder) == ProviderRanking
  {
    var p := ProbeOrder;
    assert p[1..][1..][1..] == [];
    assert Reversed(p[1..][1..]) == [p[2]];
    assert Reversed(p[1..]) == [p[2], p[1]];
  }

  /** The three overwriting probes, unrolled. */
  lemma ProbeSteps(present: set<string>)
    ensures LastPresent(ProbeOrder, present, None)
         == if HibernateMarker in present then Some(HibernateUnit)
            else if EclipseLinkMarker in present then Some(EclipseLinkUnit)
            else if ObjectDbMarker in present then Some(ObjectDbUnit)
            else None
  {
    var p := ProbeOrder;
    var c1 := if ObjectDbMarker in present then Some(ObjectDbUnit) else None;
    var c2 := if EclipseLinkMarker in present then Some(EclipseLinkUnit) else c1;
    var c3 := if HibernateMarker in present then Some(HibernateUnit) else c2;
    assert p[1..] == [p[1], p[2]] && p[1..][1..] == [p[2]] && p[1..][1..][1..] == [];
    assert LastPresent(p[1..][1..], present, c2) == LastPresent([], present, c3);
    assert LastPresent(p[1..], present, c1) == LastPresent(p[1..][1..], present, c2);
  }

  /** The ranking, unrolled. */
  lemma RankingSteps(present: set<string>)
    ensures FirstPresent(ProviderRanking, present)
         == if HibernateMarker in present then Some(HibernateUnit)
            else if EclipseLinkMarker in present then Some(EclipseLinkUnit)
            else if ObjectDbMarker in present then Some(ObjectDbUnit)
            else None
  {
    var p := ProviderRanking;
    assert p[1..] == [p[1], p[2]] && p[1..][1..] == [p[2]] && p[1..][1..][1..] == [];
    assert FirstPresent(p[1..][1..], present) == if ObjectDbMarker in present then Some(ObjectDbUnit) else None;
    assert FirstPresent(p[1..], present)
        == if EclipseLinkMarker in present then Some(EclipseLinkUnit) else FirstPresent(p[1..][1..], present);
  }

  /**
   * The resolution rule: the first non-null of the explicit name, the system
   * property and the highest-ranked present provider; null and empty fail.
   */
  function Resolve(explicit: Option<string>, systemProperty: Option<string>, present: set<string>): (r: Result<string, Err>)
    ensures r.Success? ==> |r.value| > 0
    ensures r.Failure? ==> r.error == CannotBeNull(ParamName) || r.error == CannotBeEmpty(ParamName)
  {
    var name :=
      if explicit.Some? then explicit
      else if systemProperty.Some? then systemProperty
      else FirstPresent(ProviderRanking, present);
    if name.None? then Failure(CannotBeNull(ParamName))
    else if |name.value| == 0 then Failure(CannotBeEmpty(ParamName))
    else Success(name.value)
  }

  /** The constructor's resolution steps as written: each probe that succeeds overwrites the name. */
  method ResolveUnitName(persistanceUnitName: Option<string>, systemProperty: Option<string>, present: set<string>)
    returns (r: Result<string, Err>)
    ensures r == Resolve(persistanceUnitName, systemProperty, present)
  {
    var name := if persistanceUnitName.Some? then persistanceUnitName else systemProperty;
    if name.None? {
      if ObjectDbMarker in present {
        name := Some(ObjectDbUnit);
      }
      if EclipseLinkMarker in present {
        name := Some(EclipseLinkUnit);
      }
      if HibernateMarker in present {
        name := Some(HibernateUnit);
      }
      ProbeSteps(present);
      RankingIsReversedProbeOrder();
      LastPresentIsFirstOfReversed(ProbeOrder, present, None);
    }
    if name.None? {
      return Failure(CannotBeNull(ParamName));
    }
    if |name.value| == 0 {
      return Failure(CannotBeEmpty(ParamName));
    }
    return Success(name.value);
  }

  /** A non-null explicit name is used as it is, whatever the system property and the class path say. */
  lemma ExplicitNameWins(explicit: string, systemProperty: Option<string>, present: set<string>)
    ensures Resolve(Some(explicit), systemProperty, present)
         == if explicit == "" then Failure(CannotBeEmpty(ParamName)) else Success(explicit)
  {
  }

  /** With no explicit name, a non-null system property is used as it is and nothing is probed. */
  lemma SystemPropertyWins(value: string, present: set<string>)
    ensures Resolve(None, Some(value), present)
         == if value == "" then Failure(CannotBeEmpty(ParamName)) else Success(value)
  {
  }

  /** With neither name, the last probe to succeed wins: Hibernate, then EclipseLink, then ObjectDB. */
  lemma ProbePriority(present: set<string>)
    ensures Resolve(None, None, present)
         == if HibernateMarker in present then Success(HibernateUnit)
            else if EclipseLinkMarker in present then Success(EclipseLinkUnit)
            else if ObjectDbMarker in present then Success(ObjectDbUnit)
            else Failure(CannotBeNull(ParamName))
  {
    RankingSteps(present);
  }

  /** Resolution fails with `cannotBeNull` exactly when no source yields a name. */
  lemma CannotBeNullExactly(explicit: Option<string>, systemProperty: Option<string>, present: set<string>)
    ensures Resolve(explicit, systemProperty, present) == Failure(CannotBeNull(ParamName))
        <==> explicit.None? && systemProperty.None?
             && ObjectDbMarker !in present && EclipseLinkMarker !in present && HibernateMarker !in present
  {
    RankingSteps(present);
  }

  /**
   * Resolution fails with `cannotBeEmpty` exactly when the name came from the
   * explicit argument or the system property and was `""`: a probed name never does.
   */
  lemma CannotBeEmptyExactly(explicit: Option<string>, systemProperty: Option<string>, present: set<string>)
    ensures Resolve(explicit, systemProperty, present) == Failure(CannotBeEmpty(ParamName))
        <==> explicit == Some("") || (explicit.None? && systemProperty == Some(""))
  {
  }
}
