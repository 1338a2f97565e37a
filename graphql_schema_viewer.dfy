/** The GraphQL schema viewer: which types are expanded to show their fields or values. */
module GraphqlSchemaViewer {
  import opened Lists

  /** The viewer's state `expandedTypes`, the names of the expanded types. */
  datatype GraphqlViewerState = GraphqlViewerState(expandedTypes: seq<string>)

  const InitialState: GraphqlViewerState := GraphqlViewerState([])

  /** A type's fields or enum values are listed when its name is expanded. */
  predicate IsExpanded(s: GraphqlViewerState, typeName: string)
  {
    typeName in s.expandedTypes
  }

  /** `toggleType`: collapse an expanded type (every copy of its name), else expand it last. */
  function ToggleType(s: GraphqlViewerState, typeName: string): (r: GraphqlViewerState)
    ensures IsExpanded(r, typeName) <==> !IsExpanded(s, typeName)
    ensures forall other :: other != typeName ==> (IsExpanded(r, other) <==> IsExpanded(s, other))
    ensures !IsExpanded(s, typeName) ==> r.expandedTypes == s.expandedTypes + [typeName]
    ensures IsExpanded(s, typeName) ==> IsSubsequence(r.expandedTypes, s.expandedTypes)
  {
    WithoutIsSubsequence(s.expandedTypes, typeName);
    GraphqlViewerState(Toggle(s.expandedTypes, typeName))
  }

  /** Nothing is expanded at first. */
  lemma InitiallyCollapsed(typeName: string)
    ensures !IsExpanded(InitialState, typeName)
  {
  }

  /** Expanding a collapsed type and collapsing it again restores the state. */
  lemma ToggleTwiceRestores(s: GraphqlViewerState, typeName: string)
    requires !IsExpanded(s, typeName)
    ensures ToggleType(ToggleType(s, typeName), typeName) == s
  {
    ToggleTwiceAbsent(s.expandedTypes, typeName);
  }
}
