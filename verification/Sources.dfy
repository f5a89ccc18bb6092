module Sources {
  /** Where collected material comes from. */
  datatype SourceKind = Session | Notion | Gmail | File | Confluence | Jira
}
