/** What a view of the graph holds (packages/studio-ui/src/state.types.ts). */
module StudioView {
  import opened Wrappers

  datatype Mode = Near | Flow | All

  datatype Tab = ContractTab | SourceTab

  datatype Scope = Following(mode: Mode) | Locked(mode: Mode, anchor: string)

  datatype Options = Options(showTypes: bool, showCounts: bool, hiddenColumns: seq<string>)

  datatype View = View(node: Option<string>, scope: Scope, tab: Tab, expanded: seq<string>, options: Options, query: string)

  datatype Rect = Rect(x: real, y: real, width: real, height: real)

  datatype Viewport = Viewport(zoom: real, rect: Rect)
}
