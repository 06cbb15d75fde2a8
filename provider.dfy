/**
 * Stand-ins for the collaborators the wrapper delegates to: the JPA provider's
 * `EntityManagerFactory` and `EntityManager`, the `Persistence` bootstrap entry
 * point, and the damper chosen for a factory. Their behaviour belongs to the
 * provider; the model keeps only what the wrapper relies on: which profile and
 * properties a factory was built from, that every entity manager is new, and
 * how many times a factory has been closed.
 */
module Provider {
  import opened Wrappers

  /** A property bag passed to the provider (`java.util.Map`, string-valued here). */
  type Props = map<string, string>

  /** A runtime failure raised by the provider; the wrapper rethrows it unchanged. */
  datatype RuntimeException = RuntimeException(message: string)

  /** An opaque handle on the provider's factory. */
  class EntityManagerFactory {
    /** The persistence-unit name the factory was built for. */
    const unitName: string
    /** The property bag the factory was built with (`null` is `None`). */
    const properties: Option<Props>
    /** How many times `close` has been called on this handle. */
    ghost var closeCount: nat

    constructor (unitName: string, properties: Option<Props>)
      ensures this.unitName == unitName && this.properties == properties
      ensures closeCount == 0
    {
      this.unitName := unitName;
      this.properties := properties;
      closeCount := 0;
    }

    /** Opens a new entity manager with optional property overrides; nothing is pooled. */
    method CreateEntityManager(props: Option<Props>) returns (em: EntityManager)
      ensures fresh(em)
      ensures em.factory == this && em.properties == props
    {
      em := new EntityManager(this, props);
    }

    /** Closes the handle; the model counts the calls. */
    method Close()
      modifies this
      ensures closeCount == old(closeCount) + 1
    {
      closeCount := closeCount + 1;
    }
  }

  /** An opaque per-use handle obtained from a factory. */
  class EntityManager {
    const factory: EntityManagerFactory
    const properties: Option<Props>

    constructor (factory: EntityManagerFactory, properties: Option<Props>)
      ensures this.factory == factory && this.properties == properties
    {
      this.factory := factory;
      this.properties := properties;
    }
  }

  /**
   * `Persistence.createEntityManagerFactory(unitName, props)`. Whether the
   * provider throws is its own business, so the model takes that outcome as a
   * parameter: `Some(e)` means the provider raises `e`.
   */
  method CreateEntityManagerFactory(unitName: string, props: Option<Props>, outcome: Option<RuntimeException>)
    returns (r: Result<EntityManagerFactory, RuntimeException>)
    ensures outcome.Some? ==> r == Failure(outcome.value)
    ensures outcome.None? ==> r.Success? && fresh(r.value) && r.value.closeCount == 0
    ensures outcome.None? ==> r.value.unitName == unitName && r.value.properties == props
  {
    if outcome.Some? {
      return Failure(outcome.value);
    }
    var emf := new EntityManagerFactory(unitName, props);
    return Success(emf);
  }

  /**
   * The helper object `DamperFactory.create` derives from a factory. How it is
   * chosen is not part of this model; the token only remembers its factory.
   */
  datatype Damper = Damper(factory: EntityManagerFactory)

  /** `DamperFactory.create(emf)`. */
  function DamperFor(emf: EntityManagerFactory): Damper
  {
    Damper(emf)
  }
}
