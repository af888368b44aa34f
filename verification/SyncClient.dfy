/** The phone's polling client: cursor, connection monitor, batch size and event processing. */
module SyncClient {
  import opened Wrappers
  import opened Events
  import opened EventLog
  import opened EventProcessing
  import opened Connectivity

  datatype Client = Client(since: int, monitor: Monitor, batch: Batch, view: View)

  const FRESH_CLIENT := Client(0, FRESH_MONITOR, Batch(DEFAULT_LIMITS.stable, 0), EMPTY_VIEW)

  /** A poll that was answered with `events`. */
  function Received(cfg: Config, c: Client, events: seq<Event>): Client {
    Client(
      if events == [] then c.since else events[|events| - 1].ts,
      AfterSuccess(c.monitor),
      if c.monitor.state != Connected then Conservative(DEFAULT_LIMITS) else Grown(DEFAULT_LIMITS, c.batch),
      ProcessAll(cfg, c.view, events))
  }

  /** A poll that failed. */
  function Failed(c: Client): Client {
    c.(monitor := AfterFailure(c.monitor), batch := Conservative(DEFAULT_LIMITS))
  }

  /** What the server answers to the client's next poll. */
  function NextPage(log: seq<Event>, c: Client): seq<Event> {
    Page(StableSort(log), c.since, c.batch.maxCount)
  }

  function ReceivedAll(cfg: Config, c: Client, pages: seq<seq<Event>>): Client {
    if pages == [] then c else Received(cfg, ReceivedAll(cfg, c, pages[..|pages| - 1]), pages[|pages| - 1])
  }

  /** What is asked for after so many successes in a row. */
  function RampAt(successes: nat): int {
    if successes <= 1 then 5
    else if successes == 2 then 10
    else if successes == 3 then 20
    else if successes == 4 then 40
    else 50
  }

  /** After a failure, or at the start, the batch climbs 5, 10, 20, 40, 50 and stays there, whatever the pages. */
  lemma {:induction false} BatchRampsUp(cfg: Config, c: Client, pages: seq<seq<Event>>)
    requires c.monitor.state != Connected && pages != []
    ensures var c' := ReceivedAll(cfg, c, pages);
      c'.monitor.state == Connected && c'.batch.maxCount == RampAt(|pages|)
  {
    if |pages| > 1 { BatchRampsUp(cfg, c, pages[..|pages| - 1]); }
  }

  class SyncManager {
    const monitor: ConnectionMonitor
    const batchConfig: AdaptiveBatchConfig
    const eventProcessor: EventProcessor
    var sinceTimestampMs: int

    ghost predicate Valid()
      reads this, eventProcessor, eventProcessor.cache, eventProcessor.tabs
    {
      eventProcessor.Valid() && batchConfig.limits == DEFAULT_LIMITS
    }

    ghost function Contents(): Client
      reads this, monitor, batchConfig, eventProcessor, eventProcessor.cache, eventProcessor.tabs
    {
      Client(sinceTimestampMs, monitor.Contents(), batchConfig.Contents(), eventProcessor.Contents())
    }

    constructor (eventProcessor: EventProcessor)
      requires eventProcessor.Valid()
      ensures Valid() && this.eventProcessor == eventProcessor
      ensures fresh(monitor) && fresh(batchConfig)
      ensures Contents() == FRESH_CLIENT.(view := eventProcessor.Contents())
    {
      this.eventProcessor := eventProcessor;
      monitor := new ConnectionMonitor();
      batchConfig := new AdaptiveBatchConfig(DEFAULT_LIMITS);
      sinceTimestampMs := 0;
    }

    /** The answer to a poll has arrived. */
    method OnResponse(events: seq<Event>)
      requires Valid()
      modifies this, monitor, batchConfig, eventProcessor, eventProcessor.cache, eventProcessor.tabs
      ensures Valid()
      ensures sinceTimestampMs == if events == [] then old(sinceTimestampMs) else events[|events| - 1].ts
      ensures monitor.Contents() == AfterSuccess(old(monitor.Contents()))
      ensures batchConfig.Contents() == if old(monitor.state) != Connected then Conservative(DEFAULT_LIMITS)
                                        else Grown(DEFAULT_LIMITS, old(batchConfig.Contents()))
      ensures eventProcessor.Contents()
           == ProcessAll(eventProcessor.Settings(), old(eventProcessor.Contents()), events)
    {
      var wasDisconnected := monitor.state != Connected;
      monitor.OnRpcSuccess();
      if wasDisconnected {
        batchConfig.OnReconnected();
      } else {
        batchConfig.OnSuccessfulPoll();
      }
      eventProcessor.ProcessEvents(events);
      if events != [] {
        sinceTimestampMs := events[|events| - 1].ts;
      }
    }

    /** One poll of `server`; when it is not `reachable` the request fails. */
    method Poll(server: EventStore, reachable: bool)
      requires Valid()
      modifies this, monitor, batchConfig, eventProcessor, eventProcessor.cache, eventProcessor.tabs
      ensures Valid()
      ensures reachable ==>
        Contents() == Received(eventProcessor.Settings(), old(Contents()), NextPage(server.events, old(Contents())))
      ensures !reachable ==> Contents() == Failed(old(Contents()))
    {
      if reachable {
        var events := server.GetEvents(sinceTimestampMs, batchConfig.maxCount);
        OnResponse(events);
      } else {
        monitor.OnRpcFailure();
        batchConfig.OnPollFailure();
      }
    }
  }
}
