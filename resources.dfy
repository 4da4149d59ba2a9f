/** A registered resource, as far as the router looks at it. */
module Resources {
  import opened Options

  /** `settings.path` may be undefined (None); `internal` marks resources that
      only a root session may reach; `hasSessionHook` says whether the resource
      defines `handleSession`. What `handle` does is an input of the dispatch
      model, not part of the record. */
  datatype Resource = Resource(path: Option<string>, internal: bool, hasSessionHook: bool)

  /** A missing, empty or "/" base path stands for the empty prefix
      (`if (!path || path === '/') path = ''`). */
  function Normalize(path: Option<string>): (p: string)
    ensures path.None? ==> p == ""
    ensures path.Some? && (path.value == "" || path.value == "/") ==> p == ""
    ensures path.Some? && path.value != "" && path.value != "/" ==> p == path.value
  {
    match path
    case None => ""
    case Some(s) => if s == "/" then "" else s
  }
}
