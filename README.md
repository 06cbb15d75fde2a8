# EntityManagerFactoryWrapper, modelled in Dafny

`EntityManagerFactoryWrapper` (blueprints-jpa-graph) owns a JPA `EntityManagerFactory` and the
"damper" helper derived from it. This project models its two pieces of decision logic, plus the
object around them:

- **Persistence-unit-name resolution.** The `(String, Map)` constructor picks a name in this order:
  - the explicit name, if it is non-null;
  - otherwise the system property `jpagraph.unit-name`, if it is non-null;
  - otherwise it probes the class path for the ObjectDB, EclipseLink and Hibernate factory classes.
    Each probe that succeeds overwrites the name, so Hibernate beats EclipseLink, which beats ObjectDB.

  A name that is still null fails with `cannotBeNull("pPersistanceUnitName")`, and an empty one
  with `cannotBeEmpty`. The model states the rule declaratively (`UnitName.Resolve`, a ranked list
  of providers). It proves that the step-by-step code (`UnitName.ResolveUnitName`, three
  overwriting probes) computes exactly that rule.
- **Property extraction** (`getProperties`). Each key under
  `blueprints.jpagraph.persistence-unit-properties` is rewritten:
  - the prefix and one separator character are dropped;
  - every `..` in the rest becomes `.`, matched left to right without overlap, as Java's
    `replaceAll` does.

  Each rewritten key goes into a map, and a later key wins over an earlier one that rewrites the same
  way. The loop is a method. It is proved equal to a fold (`PropertiesOf`), and the fold is proved
  to hold exactly the rewritten keys, each mapped to the value of the last key that rewrites to it.
  The partner of the dot collapse is escaping (`EscapeDots`): collapsing undoes escaping, so every
  property name comes back out of its configuration key.
- **The wrapper object.** A class holds the factory and the damper as `const` fields, and
  `Valid()` says the damper is the one derived from the factory. The Java constructors can throw,
  so they are static methods returning a `Result`. They build the object with the one constructor
  that only stores the fields. `close` bumps a ghost close counter on the factory.

Modules: `Wrappers` (Option/Result), `Exceptions` (the error kinds), `Provider` (stand-ins for the
JPA provider and the damper), `Config` (the configuration source), `UnitName`, `UnitProperties`,
`FactoryWrapper`.

Two behaviours of the source are easy to miss:

- A non-null explicit name is used even when it is `""`, and then fails with `cannotBeEmpty`. It
  does not fall through to the system property.
- For the key `<prefix>..c`, `substring(prefix.length() + 1)` keeps the second dot, so the property
  is named `.c`, not `c` (`RewriteKeyExamples`).

## Model

| member | source | states |
|---|---|---|
| `UnitName.Resolve` | src/main/java/com/wingnest/blueprints/impls/jpa/internal/wrappers/EntityManagerFactoryWrapper.java:66-84 | a successful resolution is never empty; a failure is only `cannotBeNull` or `cannotBeEmpty` for `pPersistanceUnitName` |
| `UnitName.ResolveUnitName` | src/main/java/com/wingnest/blueprints/impls/jpa/internal/wrappers/EntityManagerFactoryWrapper.java:66-84 | the constructor's steps (explicit else system property; three probes, each success overwriting; null check, then empty check) give exactly the declarative resolution rule |
| `UnitName.FirstPresent` | src/main/java/com/wingnest/blueprints/impls/jpa/internal/wrappers/EntityManagerFactoryWrapper.java:67-81 | a probe name is found iff some ranked marker class is present, and it is the one of the first present marker in the ranking |
| `UnitName.LastPresentIsFirstOfReversed` | src/main/java/com/wingnest/blueprints/impls/jpa/internal/wrappers/EntityManagerFactoryWrapper.java:67-81 | for any list of probes, overwriting on each success leaves the first success of the reversed list, or the starting value if none succeeds |
| `UnitName.RankingIsReversedProbeOrder` | src/main/java/com/wingnest/blueprints/impls/jpa/internal/wrappers/EntityManagerFactoryWrapper.java:69-80 | the priority ranking Hibernate, EclipseLink, ObjectDB is the probe order read backwards |
| `UnitName.ProbeSteps` | src/main/java/com/wingnest/blueprints/impls/jpa/internal/wrappers/EntityManagerFactoryWrapper.java:69-80 | the three overwriting probes yield HibernateUnit if its marker is present, else EclipseLinkUnit, else ObjectDbUnit, else nothing |
| `UnitName.ExplicitNameWins` | src/main/java/com/wingnest/blueprints/impls/jpa/internal/wrappers/EntityManagerFactoryWrapper.java:66-84 | a non-null explicit name is the result whatever the system property and class path are; an explicit `""` fails with `cannotBeEmpty` |
| `UnitName.SystemPropertyWins` | src/main/java/com/wingnest/blueprints/impls/jpa/internal/wrappers/EntityManagerFactoryWrapper.java:66-67 | with no explicit name, a non-null system property is the result whatever the class path is; `""` fails with `cannotBeEmpty` |
| `UnitName.ProbePriority` | src/main/java/com/wingnest/blueprints/impls/jpa/internal/wrappers/EntityManagerFactoryWrapper.java:67-83 | with neither name, the result is HibernateUnit, else EclipseLinkUnit, else ObjectDbUnit by marker presence, else `cannotBeNull` |
| `UnitName.CannotBeNullExactly` | src/main/java/com/wingnest/blueprints/impls/jpa/internal/wrappers/EntityManagerFactoryWrapper.java:66-83 | resolution fails with `cannotBeNull` iff both names are null and no marker class is present |
| `UnitName.CannotBeEmptyExactly` | src/main/java/com/wingnest/blueprints/impls/jpa/internal/wrappers/EntityManagerFactoryWrapper.java:66-84 | resolution fails with `cannotBeEmpty` iff the explicit name is `""`, or it is null and the system property is `""`; a probed name never does |
| `Config.GetString` | src/main/java/com/wingnest/blueprints/impls/jpa/internal/wrappers/EntityManagerFactoryWrapper.java:112 | the lookup is null iff no entry has the key; otherwise it is the value of the first entry with that key |
| `Config.GetKeys` | src/main/java/com/wingnest/blueprints/impls/jpa/internal/wrappers/EntityManagerFactoryWrapper.java:107 | enumerates exactly the configuration's keys at or below the prefix, each of which has a value |
| `UnitProperties.CollapseDots` | src/main/java/com/wingnest/blueprints/impls/jpa/internal/wrappers/EntityManagerFactoryWrapper.java:111 | replacing `..` by `.` never lengthens a string |
| `UnitProperties.CollapseDotsChangesExactlyDoubleDots` | src/main/java/com/wingnest/blueprints/impls/jpa/internal/wrappers/EntityManagerFactoryWrapper.java:111 | a string without `..` is unchanged; one with `..` gets strictly shorter |
| `UnitProperties.CollapseDotsKeepsOtherChars` | src/main/java/com/wingnest/blueprints/impls/jpa/internal/wrappers/EntityManagerFactoryWrapper.java:111 | only dots are removed: the non-dot characters survive, in order |
| `UnitProperties.CollapseDotsUndoesEscape` | src/main/java/com/wingnest/blueprints/impls/jpa/internal/wrappers/EntityManagerFactoryWrapper.java:111 | collapsing a string whose dots were all doubled gives back the string |
| `UnitProperties.RewriteKey` | src/main/java/com/wingnest/blueprints/impls/jpa/internal/wrappers/EntityManagerFactoryWrapper.java:111 | the rewritten key is no longer than the key minus the prefix and one separator |
| `UnitProperties.RewriteKeyPlain` | src/main/java/com/wingnest/blueprints/impls/jpa/internal/wrappers/EntityManagerFactoryWrapper.java:111 | a remainder without `..` is the rewritten key unchanged; one with `..` is shortened |
| `UnitProperties.PropertyKeyRoundTrip` | src/main/java/com/wingnest/blueprints/impls/jpa/internal/wrappers/EntityManagerFactoryWrapper.java:111 | for every property name, the key `prefix + "." + escaped name` is rewritable and rewrites back to the name |
| `UnitProperties.RewriteKeyExamples` | src/main/java/com/wingnest/blueprints/impls/jpa/internal/wrappers/EntityManagerFactoryWrapper.java:111 | `.a.b` gives `a.b`, `..c` gives `.c`, `.a...b` gives `a..b` |
| `UnitProperties.PropertiesOfKeys` | src/main/java/com/wingnest/blueprints/impls/jpa/internal/wrappers/EntityManagerFactoryWrapper.java:107-116 | the extracted map's keys are exactly the rewritten enumerated keys |
| `UnitProperties.PropertiesOfLastWins` | src/main/java/com/wingnest/blueprints/impls/jpa/internal/wrappers/EntityManagerFactoryWrapper.java:107-116 | each rewritten key maps to the value of the last enumerated key that rewrites to it |
| `UnitProperties.PropertyKeys` | src/main/java/com/wingnest/blueprints/impls/jpa/internal/wrappers/EntityManagerFactoryWrapper.java:107 | exactly the configuration keys below the properties prefix are enumerated (each starts with the prefix and a separator), and each can be rewritten and has a value |
| `UnitProperties.GetProperties` | src/main/java/com/wingnest/blueprints/impls/jpa/internal/wrappers/EntityManagerFactoryWrapper.java:105-117 | the loop's map is the in-order fold of `put(rewritten key, getString(key))` over the enumerated keys |
| `Provider.CreateEntityManagerFactory` | src/main/java/com/wingnest/blueprints/impls/jpa/internal/wrappers/EntityManagerFactoryWrapper.java:88 | either the provider's exception, or a new factory built for the given unit name and properties and not yet closed |
| `FactoryWrapper.EntityManagerFactoryWrapper.constructor` | src/main/java/com/wingnest/blueprints/impls/jpa/internal/wrappers/EntityManagerFactoryWrapper.java:60-61 | holds the given factory and the damper derived from it |
| `FactoryWrapper.EntityManagerFactoryWrapper.FromFactory` | src/main/java/com/wingnest/blueprints/impls/jpa/internal/wrappers/EntityManagerFactoryWrapper.java:56-62 | null fails with `cannotBeNull("entityManagerFactory")`; otherwise a new wrapper whose `GetEntityManagerFactory` is that very object and whose damper is derived from it; no provider is called |
| `FactoryWrapper.EntityManagerFactoryWrapper.Create` | src/main/java/com/wingnest/blueprints/impls/jpa/internal/wrappers/EntityManagerFactoryWrapper.java:64-95 | a resolution error is raised as is; otherwise a provider failure is rethrown unchanged and no wrapper exists; otherwise a new wrapper with a new, unclosed factory for the resolved name and the given properties |
| `FactoryWrapper.EntityManagerFactoryWrapper.Default` | src/main/java/com/wingnest/blueprints/impls/jpa/internal/wrappers/EntityManagerFactoryWrapper.java:44-46 | behaves as `Create` with a null name and null properties, including a new factory not yet closed |
| `FactoryWrapper.EntityManagerFactoryWrapper.FromName` | src/main/java/com/wingnest/blueprints/impls/jpa/internal/wrappers/EntityManagerFactoryWrapper.java:48-50 | behaves as `Create` with the name and null properties, including a new factory not yet closed |
| `FactoryWrapper.EntityManagerFactoryWrapper.FromProperties` | src/main/java/com/wingnest/blueprints/impls/jpa/internal/wrappers/EntityManagerFactoryWrapper.java:52-54 | behaves as `Create` with a null name and the properties, including a new factory not yet closed |
| `FactoryWrapper.EntityManagerFactoryWrapper.GetUnitName` | src/main/java/com/wingnest/blueprints/impls/jpa/internal/wrappers/EntityManagerFactoryWrapper.java:101-103 | null iff the configuration has no `blueprints.jpagraph.unit-name` key; otherwise a value stored under that key |
| `FactoryWrapper.EntityManagerFactoryWrapper.FromConfiguration` | src/main/java/com/wingnest/blueprints/impls/jpa/internal/wrappers/EntityManagerFactoryWrapper.java:97-99 | behaves as `Create` with the configured unit name and the extracted property map, including a new factory not yet closed |
| `FactoryWrapper.EntityManagerFactoryWrapper.CreateEntityManager` | src/main/java/com/wingnest/blueprints/impls/jpa/internal/wrappers/EntityManagerFactoryWrapper.java:119-122 | a new entity manager, from the held factory, with the given overrides |
| `FactoryWrapper.EntityManagerFactoryWrapper.CreateDefaultEntityManager` | src/main/java/com/wingnest/blueprints/impls/jpa/internal/wrappers/EntityManagerFactoryWrapper.java:124-126 | a new entity manager from the held factory with null overrides, as `createEntityManager(null)` |
| `FactoryWrapper.EntityManagerFactoryWrapper.Close` | src/main/java/com/wingnest/blueprints/impls/jpa/internal/wrappers/EntityManagerFactoryWrapper.java:132-134 | the held factory is closed exactly once more; nothing else changes |

The getters `GetEntityManagerFactory` (lines 128-130) and `GetDamper` (lines 136-138) return the
`const` fields. `FromFactory`'s contract states what they return.

## Left out

- The JPA provider: `Persistence.createEntityManagerFactory`, `EntityManagerFactory.createEntityManager`
  and `close` are stand-ins. Whether the provider throws is a parameter (`outcome`), and a factory
  records only its unit name, its properties and a ghost close count.
- Class loading (`ClassLoader.loadClass`, `ClassNotFoundException`) is modelled as membership in
  `present`. `System.getProperty("jpagraph.unit-name")` is modelled as its value, passed in.
- `DamperFactory` and `Damper` are not part of this model. The damper is an opaque token that
  remembers the factory it was derived from, so the choice by the factory's runtime class is not
  modelled.
- Apache Commons Configuration is modelled as an ordered list of (key, value) entries. `getString`
  returns the first matching value, and `getKeys(prefix)` yields the keys equal to or below the
  prefix. List-valued properties, interpolation and the library's own key escaping are not modelled.
- `FactoryWrapper.EntityManagerFactoryWrapper.FromConfiguration` requires that no configuration key
  equals the properties prefix itself. Such a key makes the source's `substring` throw
  `StringIndexOutOfBoundsException`, and that exception is not modelled.
- `UnitProperties.GetProperties` and `UnitProperties.PropertyKeys` have the same requirement, for
  the same reason.
- Property bags are `map<string, string>`. The source's `Map<String, Object>` values are not
  limited to strings.
- A null `Configuration` makes the source's `getUnitName` throw `NullPointerException`. The
  model's configuration is a sequence and cannot be null, so that case is not modelled.
- SLF4J logging, including the log before rethrowing a provider failure, has no effect in the model.
- Use after `close` is left to the provider and is not modelled. The wrapper keeps no closed flag.
