/**
 * `ModuleIdentifier`: a module named by the text of its name token. Two
 * identifiers are the same module exactly when their names are the same
 * text; the path of a `from` clause and the global flag play no part.
 */
module ModuleIdentifiers {
  import opened JavaLang

  datatype ModuleIdentifier = ModuleIdentifier(name: string, globalFlag: bool, fromClausePath: seq<string>)

  /** `GLOBAL`: the private constructor's identifier, the only one with the global flag set. */
  const GLOBAL: ModuleIdentifier := ModuleIdentifier("GLOBAL", true, [])

  /** The public constructor: a name token and a `from` path, never global. */
  function NewModuleIdentifier(name: string, fromPath: seq<string>): (r: ModuleIdentifier)
    ensures !r.globalFlag
  {
    ModuleIdentifier(name, false, fromPath)
  }

  /** `getNameString`. */
  function NameString(m: ModuleIdentifier): string {
    m.name
  }

  /**
   * `equals`: the other identifier's name has the same text. It agrees with
   * `hashCode`, as Java requires, and with `compareTo`, which is zero
   * exactly on equal identifiers.
   */
  predicate IdentifierEquals(m: ModuleIdentifier, o: ModuleIdentifier)
    ensures IdentifierEquals(m, o) ==> IdentifierHash(m) == IdentifierHash(o)
    ensures IdentifierEquals(m, o) <==> IdentifierCompare(m, o) == 0
  {
    o.name == m.name
  }

  /** `hashCode`: the hash of the name's text. */
  function IdentifierHash(m: ModuleIdentifier): (h: int)
    ensures IsInt32(h)
  {
    StringHash(m.name)
  }

  /** `compareTo`: the names' text compared; zero exactly on equal names, and antisymmetric. */
  function IdentifierCompare(m: ModuleIdentifier, o: ModuleIdentifier): (r: int)
    ensures r == 0 <==> m.name == o.name
    ensures r == -CompareTo(o.name, m.name)
  {
    CompareToZeroIffEqual(m.name, o.name);
    CompareToAntisymmetric(m.name, o.name);
    CompareTo(m.name, o.name)
  }
}

module ModuleIdentifierFacts {
  import opened JavaLang
  import opened ModuleIdentifiers

  /** `equals` is an equivalence. */
  lemma EqualsIsEquivalence(a: ModuleIdentifier, b: ModuleIdentifier, c: ModuleIdentifier)
    ensures IdentifierEquals(a, a)
    ensures IdentifierEquals(a, b) ==> IdentifierEquals(b, a)
    ensures IdentifierEquals(a, b) && IdentifierEquals(b, c) ==> IdentifierEquals(a, c)
  {
  }

  /**
   * The global flag plays no part in `equals`: a module of the user's named
   * `GLOBAL` is equal to the global identifier, although only the latter is global.
   */
  lemma UserModuleNamedGlobal(fromPath: seq<string>)
    ensures IdentifierEquals(GLOBAL, NewModuleIdentifier("GLOBAL", fromPath))
    ensures GLOBAL.globalFlag && !NewModuleIdentifier("GLOBAL", fromPath).globalFlag
  {
  }

  /** Identifiers from different `from` paths with one name are the same module. */
  lemma FromPathIgnored(name: string, p: seq<string>, q: seq<string>)
    ensures IdentifierEquals(NewModuleIdentifier(name, p), NewModuleIdentifier(name, q))
    ensures IdentifierHash(NewModuleIdentifier(name, p)) == IdentifierHash(NewModuleIdentifier(name, q))
  {
  }
}
