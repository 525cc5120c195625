/** The source overview page: the "add destination" dropdown, where picking an
    entry navigates, and whether the connection table or a placeholder shows. */
module SourceOverviewPage {
  import opened Wrappers

  datatype Destination = Destination(destinationId: string, name: string, icon: Option<string>)

  datatype IconPosition = IconLeft | IconRight

  /** A dropdown entry; every entry renders as a button with the icon on the right. */
  datatype DropdownOption = DropdownOption(asButton: bool, icon: Option<string>, iconPosition: IconPosition,
                                           displayName: string, value: string)

  /** One entry per destination, in the same order. */
  function DestinationDropdownOptions(destinations: seq<Destination>): (r: seq<DropdownOption>)
    ensures |r| == |destinations|
    ensures forall i :: 0 <= i < |r| ==>
              && r[i].value == destinations[i].destinationId
              && r[i].displayName == destinations[i].name
              && r[i].icon == destinations[i].icon
              && r[i].asButton && r[i].iconPosition == IconRight
  {
    seq(|destinations|, i requires 0 <= i < |destinations| =>
      DropdownOption(true, destinations[i].icon, IconRight, destinations[i].name, destinations[i].destinationId))
  }

  /** The value of the dropdown's own "create new" entry. */
  const CreateNewItem := "create-new-item"

  /** Route segments; their spelled-out values live in the route table. */
  datatype RouteSegment = ConnectionsRoute | ConnectionNewRoute

  /** A relative path: `up` parent steps, then the segments. */
  datatype RelativePath = RelativePath(up: nat, segments: seq<RouteSegment>)

  /** `../../../<connections>/<new connection>`. */
  const NewConnectionPath := RelativePath(3, [ConnectionsRoute, ConnectionNewRoute])

  datatype NavigationState = NavigationState(destinationId: Option<string>, sourceId: string)

  datatype Navigation = Navigation(path: RelativePath, state: NavigationState)

  /** Picking an entry opens the new-connection page for this source, with the
      picked destination unless the entry is "create new". */
  function OnSelect(sourceId: string, selected: string): (r: Navigation)
    ensures r.path == NewConnectionPath
    ensures r.state.sourceId == sourceId
    ensures r.state.destinationId.None? <==> selected == CreateNewItem
    ensures r.state.destinationId.Some? ==> r.state.destinationId.value == selected
  {
    var state := if selected == CreateNewItem then NavigationState(None, sourceId)
                 else NavigationState(Some(selected), sourceId);
    Navigation(NewConnectionPath, state)
  }

  /** Picking the entry of a destination starts a connection from this source to that destination. */
  lemma PickingDestinationNavigatesToIt(sourceId: string, destinations: seq<Destination>, i: int)
    requires 0 <= i < |destinations|
    requires destinations[i].destinationId != CreateNewItem
    ensures var nav := OnSelect(sourceId, DestinationDropdownOptions(destinations)[i].value);
            nav.state == NavigationState(Some(destinations[i].destinationId), sourceId)
  {
  }

  datatype ConnectionsView = ConnectionTable(count: nat) | DestinationsPlaceholder

  /** The table shows exactly when the source has a connection. */
  function ConnectionsSection<C>(connections: seq<C>): (r: ConnectionsView)
    ensures r.ConnectionTable? <==> |connections| > 0
    ensures r.ConnectionTable? ==> r.count == |connections|
  {
    if |connections| > 0 then ConnectionTable(|connections|) else DestinationsPlaceholder
  }
}
