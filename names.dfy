/** Names shared by the transform pass and the binding registry. */
module Names {

  /** A binding name, as the source passes it around (a JavaScript string). */
  type Name = string

  /** The reserved name of the opt-in marker and of the injected control object. */
  const Marker: Name := "mockingbird"

  /** The name under which the registry addresses a module's default export. */
  const Default: Name := "default"

  predicate NoDuplicates<T(==)>(s: seq<T>) {
    forall i, j :: 0 <= i < j < |s| ==> s[i] != s[j]
  }
}
