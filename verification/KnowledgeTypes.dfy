/** The knowledge vocabulary of `core/types.rs`. Ids are totally ordered values, times
    are naturals. */
module KnowledgeTypes {
  import opened Wrappers
  import opened Sources

  type FactId = nat
  type Time = nat

  datatype Scope = Company | Personal | Unknown
  datatype Visibility = Private | Shared
  datatype FactKind = Note | Practice | Preference | Project | Concern | Concept

  /** A normalized sharing category. */
  type Category = string

  datatype FactMeta = FactMeta(
    source: SourceKind,
    collectedAt: Time,
    confirmed: bool,
    scope: Scope,
    confirmedAt: Option<Time>,
    visibility: Visibility,
    category: Option<Category>,
    topics: seq<string>,
    kind: FactKind)

  datatype Fact = Fact(id: FactId, title: string, body: string, links: seq<FactId>, meta: FactMeta)

  datatype FactSummary = FactSummary(
    id: FactId,
    title: string,
    scope: Scope,
    kind: FactKind,
    topics: seq<string>,
    visibility: Visibility,
    confirmed: bool)

  predicate ById(a: FactSummary, b: FactSummary) {
    a.id <= b.id
  }

  predicate SameSummary(a: FactSummary, b: FactSummary) {
    a.id == b.id
  }

  /** Stored documents, filed under their own id. */
  ghost predicate Filed(docs: map<FactId, Fact>) {
    forall id | id in docs :: docs[id].id == id
  }

  predicate InScope(filter: Option<Scope>, scope: Scope) {
    filter.None? || filter.value == scope
  }

  function Summarize(f: Fact): FactSummary {
    FactSummary(f.id, f.title, f.meta.scope, f.meta.kind, f.meta.topics, f.meta.visibility, f.meta.confirmed)
  }
}
