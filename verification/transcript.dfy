/** The chat transcript shared by the two chat panels: an ordered list of user
    and assistant messages. Timestamps (`at`) come from the clock and are left
    out. */
module Transcript {
  import opened Wrappers
  import Api

  datatype Message =
    | User(content: string)
    | Assistant(content: string, topScore: Option<real>, topSources: Option<seq<Api.Source>>)

  /** `after` keeps every message of `before`, in place, and may add more. */
  predicate Extends(before: seq<Message>, after: seq<Message>) {
    |before| <= |after| && after[..|before|] == before
  }

  lemma ExtendsTransitive(a: seq<Message>, b: seq<Message>, c: seq<Message>)
    requires Extends(a, b) && Extends(b, c)
    ensures Extends(a, c)
  {
    assert c[..|a|] == c[..|b|][..|a|];
  }
}
