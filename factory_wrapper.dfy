/**
 * `EntityManagerFactoryWrapper`: holds a provider factory and the damper
 * derived from it. The Java constructors that can throw are modelled as static
 * methods returning a `Result`, since a Dafny constructor cannot fail; each
 * builds the object with the one constructor that only stores the two fields.
 *
 * What the process and the provider contribute is passed in: the value of the
 * system property `jpagraph.unit-name`, the set of class names the class loader
 * can find, and whether `Persistence.createEntityManagerFactory` throws.
 */
module FactoryWrapper {
  import opened Wrappers
  import opened Exceptions
  import opened Provider
  import opened Config
  import UnitName
  import UnitProperties

  const UnitNameKey: string := "blueprints.jpagraph.unit-name"
  const FactoryParamName: string := "entityManagerFactory"

  /**
   * What the `(String, Map)` constructor promises: a resolution error is
   * raised as it is; otherwise a provider failure is rethrown unchanged;
   * otherwise the wrapper holds a factory built for the resolved name and the
   * given properties, and the damper derived from that factory.
   */
  ghost predicate Constructed(r: Result<EntityManagerFactoryWrapper, Err>, persistanceUnitName: Option<string>,
                              props: Option<Props>, systemProperty: Option<string>, present: set<string>,
                              outcome: Option<RuntimeException>)
  {
    match UnitName.Resolve(persistanceUnitName, systemProperty, present)
    case Failure(e) => r == Failure(e)
    case Success(name) =>
      if outcome.Some? then r == Failure(ProviderFailure(outcome.value))
      else
        && r.Success?
        && r.value.Valid()
        && r.value.entityManagerFactory.unitName == name
        && r.value.entityManagerFactory.properties == props
  }

  class EntityManagerFactoryWrapper {
    const entityManagerFactory: EntityManagerFactory
    const damper: Damper

    /** The damper is the one derived from the held factory. */
    ghost predicate Valid()
    {
      damper == DamperFor(entityManagerFactory)
    }

    /** Stores the factory and derives the damper from it. */
    constructor (emf: EntityManagerFactory)
      ensures Valid() && entityManagerFactory == emf
    {
      entityManagerFactory := emf;
      damper := DamperFor(emf);
    }

    /** The `(EntityManagerFactory)` constructor: `null` is rejected, anything else is held as it is. */
    static method FromFactory(emf: EntityManagerFactory?) returns (r: Result<EntityManagerFactoryWrapper, Err>)
      ensures emf == null ==> r == Failure(CannotBeNull(FactoryParamName))
      ensures emf != null ==> r.Success? && fresh(r.value) && r.value.Valid()
      ensures emf != null ==> r.value.GetEntityManagerFactory() == emf && r.value.GetDamper() == DamperFor(emf)
    {
      if emf == null {
        return Failure(CannotBeNull(FactoryParamName));
      }
      var w := new EntityManagerFactoryWrapper(emf);
      return Success(w);
    }

    /** The `(String, Map)` constructor. */
    static method Create(persistanceUnitName: Option<string>, props: Option<Props>, systemProperty: Option<string>,
                         present: set<string>, outcome: Option<RuntimeException>)
      returns (r: Result<EntityManagerFactoryWrapper, Err>)
      ensures Constructed(r, persistanceUnitName, props, systemProperty, present, outcome)
      ensures r.Success? ==> fresh(r.value) && fresh(r.value.entityManagerFactory)
      ensures r.Success? ==> r.value.entityManagerFactory.closeCount == 0
    {
      var name := UnitName.ResolveUnitName(persistanceUnitName, systemProperty, present);
      if name.Failure? {
        return Failure(name.error);
      }
      var emf := Provider.CreateEntityManagerFactory(name.value, props, outcome);
      if emf.Failure? {
        return Failure(ProviderFailure(emf.error));
      }
      var w := new EntityManagerFactoryWrapper(emf.value);
      return Success(w);
    }

    /** The `()` constructor: `(null, null)`. */
    static method Default(systemProperty: Option<string>, present: set<string>, outcome: Option<RuntimeException>)
      returns (r: Result<EntityManagerFactoryWrapper, Err>)
      ensures Constructed(r, None, None, systemProperty, present, outcome)
      ensures r.Success? ==> fresh(r.value) && fresh(r.value.entityManagerFactory)
      ensures r.Success? ==> r.value.entityManagerFactory.closeCount == 0
    {
      r := Create(None, None, systemProperty, present, outcome);
    }

    /** The `(String)` constructor: `(name, null)`. */
    static method FromName(persistanceUnitName: Option<string>, systemProperty: Option<string>, present: set<string>,
                           outcome: Option<RuntimeException>)
      returns (r: Result<EntityManagerFactoryWrapper, Err>)
      ensures Constructed(r, persistanceUnitName, None, systemProperty, present, outcome)
      ensures r.Success? ==> fresh(r.value) && fresh(r.value.entityManagerFactory)
      ensures r.Success? ==> r.value.entityManagerFactory.closeCount == 0
    {
      r := Create(persistanceUnitName, None, systemProperty, present, outcome);
    }

    /** The `(Map)` constructor: `(null, props)`. */
    static method FromProperties(props: Option<Props>, systemProperty: Option<string>, present: set<string>,
                                 outcome: Option<RuntimeException>)
      returns (r: Result<EntityManagerFactoryWrapper, Err>)
      ensures Constructed(r, None, props, systemProperty, present, outcome)
      ensures r.Success? ==> fresh(r.value) && fresh(r.value.entityManagerFactory)
      ensures r.Success? ==> r.value.entityManagerFactory.closeCount == 0
    {
      r := Create(None, props, systemProperty, present, outcome);
    }

    /** `getUnitName(configuration)`: the value of `blueprints.jpagraph.unit-name`, or `null`. */
    static function GetUnitName(c: Configuration): (r: Option<string>)
      ensures r.None? <==> forall i :: 0 <= i < |c| ==> c[i].0 != UnitNameKey
      ensures r.Some? ==> (UnitNameKey, r.value) in c
    {
      GetString(c, UnitNameKey)
    }

    /**
     * The `(Configuration)` constructor: the unit name and the extracted
     * properties handed to `(String, Map)`. A key equal to the properties
     * prefix itself would make the extraction throw.
     */
    static method FromConfiguration(c: Configuration, systemProperty: Option<string>, present: set<string>,
                                    outcome: Option<RuntimeException>)
      returns (r: Result<EntityManagerFactoryWrapper, Err>)
      requires forall i :: 0 <= i < |c| ==> c[i].0 != UnitProperties.Prefix
      ensures Constructed(r, GetUnitName(c), Some(UnitProperties.PropertiesOf(c, UnitProperties.PropertyKeys(c))),
                          systemProperty, present, outcome)
      ensures r.Success? ==> fresh(r.value) && fresh(r.value.entityManagerFactory)
      ensures r.Success? ==> r.value.entityManagerFactory.closeCount == 0
    {
      var props := UnitProperties.GetProperties(c);
      r := Create(GetUnitName(c), Some(props), systemProperty, present, outcome);
    }

    /** `createEntityManager(props)`: a new entity manager from the held factory, every call. */
    method CreateEntityManager(props: Option<Props>) returns (em: EntityManager)
      ensures fresh(em) && em.factory == entityManagerFactory && em.properties == props
    {
      em := entityManagerFactory.CreateEntityManager(props);
    }

    /** `createEntityManager()`: `createEntityManager(null)`. */
    method CreateDefaultEntityManager() returns (em: EntityManager)
      ensures fresh(em) && em.factory == entityManagerFactory && em.properties == None
    {
      em := CreateEntityManager(None);
    }

    function GetEntityManagerFactory(): EntityManagerFactory
    {
      entityManagerFactory
    }

    function GetDamper(): Damper
    {
      damper
    }

    /** `close()`: closes the held factory once; the wrapper itself keeps no closed flag. */
    method Close()
      modifies entityManagerFactory
      ensures entityManagerFactory.closeCount == old(entityManagerFactory.closeCount) + 1
    {
      entityManagerFactory.Close();
    }
  }
}
