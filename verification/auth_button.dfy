/** The OAuth button of the connector form: which button component and label a
    connector gets, and whether the "authentication required" message shows. */
module AuthButton {
  import opened Wrappers

  /** Connector definition ids, by the names the connector-id table gives them.
      `OtherConnector(id)` stands for an id outside that table: it never carries
      the id string of a named connector, which has its own constructor. */
  datatype ConnectorId =
    | SourceGoogleAds
    | SourceGoogleAnalyticsUniversalAnalytics
    | SourceGoogleDirectory
    | SourceGoogleSearchConsole
    | SourceGoogleSheets
    | SourceGoogleWorkspaceAdminReports
    | SourceYouTubeAnalytics
    | DestinationGoogleSheets
    | SourceYouTubeAnalyticsBusiness
    | SourceQuickBooks
    | OtherConnector(id: string)

  /** The connectors that sign in with Google. */
  const GoogleConnectors: seq<ConnectorId> := [
    SourceGoogleAds,
    SourceGoogleAnalyticsUniversalAnalytics,
    SourceGoogleDirectory,
    SourceGoogleSearchConsole,
    SourceGoogleSheets,
    SourceGoogleWorkspaceAdminReports,
    SourceYouTubeAnalytics,
    DestinationGoogleSheets,
    SourceYouTubeAnalyticsBusiness
  ]

  /** `isGoogleConnector`: the id is in the Google list, which names every
      listed connector except QuickBooks. */
  predicate IsGoogleConnector(id: ConnectorId)
    ensures IsGoogleConnector(id) <==> !id.OtherConnector? && id != SourceQuickBooks
  {
    id in GoogleConnectors
  }

  /** The Google list names nine distinct connectors, and neither QuickBooks nor any unnamed id. */
  lemma GoogleConnectorsAreTheNine()
    ensures |GoogleConnectors| == 9
    ensures forall i, j :: 0 <= i < j < |GoogleConnectors| ==> GoogleConnectors[i] != GoogleConnectors[j]
    ensures !IsGoogleConnector(SourceQuickBooks)
    ensures forall s :: !IsGoogleConnector(OtherConnector(s))
  {
  }

  datatype ButtonComponent = GoogleAuthButton | QuickBooksAuthButton | PlainButton

  /** Google first, then QuickBooks, then the plain button. */
  function GetButtonComponent(id: ConnectorId): (r: ButtonComponent)
    ensures r == GoogleAuthButton <==> IsGoogleConnector(id)
    ensures r == QuickBooksAuthButton <==> id == SourceQuickBooks
    ensures r == PlainButton <==> !IsGoogleConnector(id) && id != SourceQuickBooks
  {
    if IsGoogleConnector(id) then GoogleAuthButton
    else if id == SourceQuickBooks then QuickBooksAuthButton
    else PlainButton
  }

  const SignInWithGoogleMessage := "connectorForm.signInWithGoogle"
  const AuthenticateMessage := "connectorForm.authenticate"

  function GetAuthenticateMessageId(id: ConnectorId): (r: string)
    ensures r == SignInWithGoogleMessage <==> IsGoogleConnector(id)
    ensures r == AuthenticateMessage <==> !IsGoogleConnector(id)
  {
    if IsGoogleConnector(id) then SignInWithGoogleMessage else AuthenticateMessage
  }

  const EmptyFieldError := "form.empty.error"

  /** Some hidden auth field is reported empty. */
  predicate AuthRequiredError(hiddenAuthFieldErrors: map<string, string>)
    ensures AuthRequiredError(hiddenAuthFieldErrors) <==>
              exists k :: k in hiddenAuthFieldErrors && hiddenAuthFieldErrors[k] == EmptyFieldError
  {
    EmptyFieldError in hiddenAuthFieldErrors.Values
  }

  datatype ButtonLabel = Reauthenticate | Authenticate(messageId: string, connectorName: string)

  datatype MessageStyle = ErrorStyle | SuccessStyle

  datatype AuthButtonView = AuthButtonView(
    component: ButtonComponent,
    buttonLabel: ButtonLabel,
    messageStyle: MessageStyle,
    showsRequiredMessage: bool)

  datatype ConnectorDefinition = ConnectorDefinition(name: string)

  /** What the button renders; nothing without a selected connector definition. */
  function Render(selectedDefinition: Option<ConnectorDefinition>, definitionId: ConnectorId,
                  hiddenAuthFieldErrors: map<string, string>, done: bool): (r: Option<AuthButtonView>)
    ensures r.None? <==> selectedDefinition.None?
    ensures r.Some? ==> r.value.component == GetButtonComponent(definitionId)
    ensures r.Some? ==> (r.value.buttonLabel == Reauthenticate <==> done)
    ensures r.Some? && !done ==>
              r.value.buttonLabel == Authenticate(GetAuthenticateMessageId(definitionId), selectedDefinition.value.name)
    ensures r.Some? ==> (r.value.showsRequiredMessage <==> exists k :: k in hiddenAuthFieldErrors && hiddenAuthFieldErrors[k] == EmptyFieldError)
    ensures r.Some? ==> (r.value.messageStyle == ErrorStyle <==> r.value.showsRequiredMessage)
  {
    match selectedDefinition
    case None => None
    case Some(definition) =>
      var required := AuthRequiredError(hiddenAuthFieldErrors);
      var buttonLabel := if done then Reauthenticate
                   else Authenticate(GetAuthenticateMessageId(definitionId), definition.name);
      Some(AuthButtonView(GetButtonComponent(definitionId), buttonLabel,
                          if required then ErrorStyle else SuccessStyle, required))
  }
}
