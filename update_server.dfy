/** The update-server decider of the gRPC example
    (`examples/grpc_server/grpc_server/aggregate.py`) and its command
    callables (`examples/grpc_server/grpc_server/types.py`).

    A client connection starts as `NewConnection`. It may ask for the list of
    available versions or for the download of one version; either request
    is answered once, after which the connection is finished. The versions on
    offer and their payloads are a constant table. */
module UpdateServer {
  import opened Deciders
  import opened Runner

  newtype byte = x: int | 0 <= x < 256

  /** The payload every version carries: the bytes of `download_data`. */
  function DownloadData(): (data: seq<byte>)
    ensures |data| == 13
  {
    [100, 111, 119, 110, 108, 111, 97, 100, 95, 100, 97, 116, 97]
  }

  /** The table's keys, in the order the table lists them. */
  function VersionList(): seq<string> {
    ["0.10.41", "0.6.27", "2.5.1", "3.3.12", "4.13.45", "6.18.30", "6.20.21", "6.5.3", "6.8.9", "8.9.38"]
  }

  /** The versions on offer and the payload of each. */
  function VersionTable(): map<string, seq<byte>> {
    map[
      "0.10.41" := DownloadData(),
      "0.6.27" := DownloadData(),
      "2.5.1" := DownloadData(),
      "3.3.12" := DownloadData(),
      "4.13.45" := DownloadData(),
      "6.18.30" := DownloadData(),
      "6.20.21" := DownloadData(),
      "6.5.3" := DownloadData(),
      "6.8.9" := DownloadData(),
      "8.9.38" := DownloadData()
    ]
  }

  /** The key list the deciders pass to the commands holds exactly the
      table's keys, each once. */
  lemma VersionListIsTableKeys()
    ensures forall v :: v in VersionList() <==> v in VersionTable()
    ensures forall i, j | 0 <= i < j < |VersionList()| :: VersionList()[i] != VersionList()[j]
  {
    var vs := VersionList();
    forall v | v in VersionTable() ensures v in vs {
      assert v in VersionTable().Keys;
    }
  }

  datatype Command =
    | ListAvailableVersions(clientId: string)
    | DownloadUpdate(clientId: string, version: string)

  datatype Event =
    | RequestedDownloadValid(version: string)
    | RequestedDownloadInvalid(version: string)
    | VersionListRetrieval(versions: seq<string>)

  datatype State =
    | NewConnection
    | VersionsRetrieved(versions: seq<string>)
    | DownloadReady(data: seq<byte>, version: string)
    | DownloadUnavailable(errorCode: int, errorMessage: string)

  /** Calling a command with the list of known versions. A listing returns
      that list; a download request is valid exactly when its version is in
      the list. Either way there is exactly one event, and a download's
      event names the requested version. */
  function Call(c: Command, versionList: seq<string>): (events: seq<Event>)
    ensures |events| == 1
    ensures c.ListAvailableVersions? ==> events == [VersionListRetrieval(versionList)]
    ensures c.DownloadUpdate? ==>
      && (events[0].RequestedDownloadValid? || events[0].RequestedDownloadInvalid?)
      && events[0].version == c.version
      && (events[0].RequestedDownloadValid? <==> c.version in versionList)
  {
    match c
    case ListAvailableVersions(_) => [VersionListRetrieval(versionList)]
    case DownloadUpdate(_, version) =>
      if version in versionList then [RequestedDownloadValid(version)]
      else [RequestedDownloadInvalid(version)]
  }

  /** Only a new connection answers commands, by calling the command with
      the table's keys; any other state answers nothing. */
  function Decide(c: Command, s: State): (events: seq<Event>)
    ensures !s.NewConnection? ==> events == []
    ensures s.NewConnection? ==> events == Call(c, VersionList())
  {
    if s.NewConnection? then Call(c, VersionList()) else []
  }

  function Unavailable(version: string): string {
    "Version " + version + " does not exist."
  }

  /** Only a new connection moves: to the version list, to the requested
      version's payload, or to error code -1 with a message naming the
      version. A valid request for a version the table lacks raises in the
      source; the model leaves the state as it is. */
  function Evolve(s: State, e: Event): (s': State)
    ensures !s.NewConnection? ==> s' == s
    ensures s.NewConnection? && e.VersionListRetrieval? ==> s' == VersionsRetrieved(e.versions)
    ensures s.NewConnection? && e.RequestedDownloadInvalid? ==> s' == DownloadUnavailable(-1, Unavailable(e.version))
    ensures s.NewConnection? && e.RequestedDownloadValid? && e.version in VersionTable() ==>
      s' == DownloadReady(VersionTable()[e.version], e.version)
  {
    match (s, e)
    case (NewConnection, VersionListRetrieval(versions)) => VersionsRetrieved(versions)
    case (NewConnection, RequestedDownloadValid(version)) =>
      if version in VersionTable() then DownloadReady(VersionTable()[version], version) else s
    case (NewConnection, RequestedDownloadInvalid(version)) => DownloadUnavailable(-1, Unavailable(version))
    case _ => s
  }

  predicate IsTerminal(s: State) {
    s.VersionsRetrieved? || s.DownloadReady? || s.DownloadUnavailable?
  }

  function UpdateAggregate(): (d: Decider<Event, Command, State>)
    ensures d.initialState == NewConnection
    ensures d.isTerminal == IsTerminal
    ensures forall c, s :: d.decide(c, s) == Decide(c, s)
    ensures forall s, e :: d.evolve(s, e) == Evolve(s, e)
  {
    BaseDecider(Decide, Evolve, NewConnection, IsTerminal)
  }

  /** The decider never emits a valid download for a version the table
      lacks, so the lookup in `evolve` never fails on its own events. */
  lemma ValidDownloadsAreInTable(c: Command, s: State)
    ensures forall e | e in Decide(c, s) && e.RequestedDownloadValid? :: e.version in VersionTable()
  {
    VersionListIsTableKeys();
  }

  /** A download request on a new connection ends with the version's
      payload when the table has it, and with error -1 otherwise. */
  lemma DownloadOutcome(clientId: string, version: string)
    ensures Submit(UpdateAggregate(), NewConnection, DownloadUpdate(clientId, version))
      == if version in VersionTable() then DownloadReady(VersionTable()[version], version)
         else DownloadUnavailable(-1, Unavailable(version))
  {
    VersionListIsTableKeys();
    var e := Decide(DownloadUpdate(clientId, version), NewConnection)[0];
    SubmitOneEvent(UpdateAggregate(), NewConnection, DownloadUpdate(clientId, version), e);
  }

  /** A listing on a new connection ends with every version on offer. */
  lemma ListingOutcome(clientId: string)
    ensures Submit(UpdateAggregate(), NewConnection, ListAvailableVersions(clientId)) == VersionsRetrieved(VersionList())
  {
    SubmitOneEvent(UpdateAggregate(), NewConnection, ListAvailableVersions(clientId), VersionListRetrieval(VersionList()));
  }

  /** Every request finishes a new connection, and a finished connection
      neither answers nor moves any more. */
  lemma OneRequestPerConnection(c: Command, s: State)
    ensures !IsTerminal(NewConnection)
    ensures IsTerminal(Submit(UpdateAggregate(), NewConnection, c))
    ensures IsTerminal(s) ==> Decide(c, s) == [] && Submit(UpdateAggregate(), s, c) == s
  {
    match c
    case ListAvailableVersions(id) => ListingOutcome(id);
    case DownloadUpdate(id, v) => DownloadOutcome(id, v);
  }
}
