/** The database schema viewer: which schemas are expanded to show their fields. */
module SchemaViewer {
  import opened Lists

  /** The viewer's state `expandedSchemas`, the names of the expanded schemas. */
  datatype SchemaViewerState = SchemaViewerState(expandedSchemas: seq<string>)

  const InitialState: SchemaViewerState := SchemaViewerState([])

  /** A schema's fields are listed when its name is expanded. */
  predicate IsExpanded(s: SchemaViewerState, schemaName: string)
  {
    schemaName in s.expandedSchemas
  }

  /** `toggleSchema`: collapse an expanded schema (every copy of its name), else expand it last. */
  function ToggleSchema(s: SchemaViewerState, schemaName: string): (r: SchemaViewerState)
    ensures IsExpanded(r, schemaName) <==> !IsExpanded(s, schemaName)
    ensures forall other :: other != schemaName ==> (IsExpanded(r, other) <==> IsExpanded(s, other))
    ensures !IsExpanded(s, schemaName) ==> r.expandedSchemas == s.expandedSchemas + [schemaName]
    ensures IsExpanded(s, schemaName) ==> IsSubsequence(r.expandedSchemas, s.expandedSchemas)
  {
    WithoutIsSubsequence(s.expandedSchemas, schemaName);
    SchemaViewerState(Toggle(s.expandedSchemas, schemaName))
  }

  /** Nothing is expanded at first. */
  lemma InitiallyCollapsed(schemaName: string)
    ensures !IsExpanded(InitialState, schemaName)
  {
  }

  /** Expanding a collapsed schema and collapsing it again restores the state. */
  lemma ToggleTwiceRestores(s: SchemaViewerState, schemaName: string)
    requires !IsExpanded(s, schemaName)
    ensures ToggleSchema(ToggleSchema(s, schemaName), schemaName) == s
  {
    ToggleTwiceAbsent(s.expandedSchemas, schemaName);
  }
}
