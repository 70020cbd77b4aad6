/** The post record handed out by the Ghost Admin API, as far as the maintenance
    script reads it, and the JavaScript truthiness the script applies to its
    optional text fields. */
module Posts {

  datatype Option<+T> = None | Some(value: T)

  /** A text field that may be `null`/`undefined` (None) or hold a string. */
  type OptText = Option<string>

  /** The visibility value the script forces on every post. */
  const Public: string := "public"

  datatype Post = Post(
    id: string,
    title: string,
    url: string,
    updatedAt: string,
    visibility: OptText,
    customExcerpt: OptText,
    metaDescription: OptText)

  /** JavaScript truthiness of a string field: `null`, `undefined` and `''` are falsy. */
  predicate Truthy(t: OptText) {
    t.Some? && t.value != ""
  }

  /** The expression `t || ''`: the text itself when truthy, the empty string otherwise. */
  function OrEmpty(t: OptText): (s: string)
    ensures s == "" <==> !Truthy(t)
    ensures Truthy(t) ==> s == t.value
  {
    if t.Some? then t.value else ""
  }

  /** The strict comparison `visibility === 'public'`. */
  predicate IsPublic(t: OptText) {
    t == Some(Public)
  }
}
