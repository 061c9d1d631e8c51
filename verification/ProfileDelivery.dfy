/** A profile on its whole way: printed by the plugin, and read by appmetrics-api.js in the same mode. */
module ProfileDelivery {
  import opened Options
  import opened JsonReader
  import opened ProfileText
  import opened ProfileJson
  import opened FormatProfiling
  import opened ProfileCsv

  /** The event that tells all of a profile, whose nodes are numbered from `id` on. */
  function ExactEvent(jsonMode: bool, root: Node, id: nat, time: nat): (event: Event) {
    if jsonMode then JsonEvent(Object([("date", Number(time as real)), ("head", ExactJson(root, id))]))
    else CsvEvent(Prof(0, ToEntries(Records(root, id, 0)), Some(Num(time))))
  }

  predicate Deliverable(jsonMode: bool, root: Node, id: nat) {
    if jsonMode then Clean(root) && ExactHits(root) else CleanRecords(Records(root, id, 0))
  }

  /** What arrives is the profile, with every name, line, count and id in its place, if and only if its names and
      counts suit the mode; an exception instead, exactly for a control character in JSON mode. */
  method DeliverProfile(printer: Printer, root: Node, time: nat) returns (event: Event)
    modifies printer`nextid, printer`result
    ensures var json, id := printer.jsonEnabled, old(printer.nextid);
      && (event == ExactEvent(json, root, id, time) <==> Deliverable(json, root, id))
      && (event.Threw? <==> json && !Clean(root))
      && printer.nextid == id + Size(root)
  {
    ghost var id := printer.nextid;
    var message := printer.ConstructData(root, time);
    event := FormatProfiling.FormatProfiling(printer.jsonEnabled, message);
    if printer.jsonEnabled {
      JsonRoundTrip(root, id, time);
      JsonRoundTripExact(root, id, time);
    } else {
      CsvRoundTripExact(root, id, time);
    }
  }
}
