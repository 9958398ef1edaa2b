/**
 * The dashboard's recent clients, read from dnsmasq's log. Lines of one request share
 * a transaction id, ids are used again, and only some lines name the client; boot
 * events fill in what the log no longer shows.
 */
module ClientLog {
  import opened Text
  import opened Store

  /** What the patterns find in a log line. */
  datatype Line = Line(
    txid: Option<string>, mac: Option<string>, at: Option<int>, ip: string, hostname: string, firmware: string)

  /** A request being put together from its lines. */
  datatype Request = Request(mac: Option<string>, ip: string, hostname: string, firmware: string, at: Option<int>)

  datatype BootEvent = BootEvent(mac: string, ip: string, when: Option<int>)

  datatype Client = Client(ip: string, hostname: string, firmware: string, at: Option<int>)
  datatype Row = Row(mac: string, client: Client)

  /** One time a client was seen: in a finished request or a boot event. */
  datatype Sighting = Sighting(mac: string, ip: string, hostname: string, firmware: string, at: Option<int>)

  const NO_ADDRESS: string := "0.0.0.0"

  function Either(first: string, second: string): string {
    if first != "" then first else second
  }

  // --- Requests ------------------------------------------------------------

  function NewRequest(): Request {
    Request(None, "", "", "", None)
  }

  /** The client's name for itself in this line, in lower case. */
  function MacOf(line: Line): Option<string> {
    if line.mac.Some? then Some(Lower(line.mac.value)) else None
  }

  function Put(r: Request, line: Line): Request {
    Request(
      if line.mac.Some? then MacOf(line) else r.mac,
      if line.ip != NO_ADDRESS then Either(line.ip, r.ip) else r.ip,
      Either(line.hostname, r.hostname),
      Either(line.firmware, r.firmware),
      if line.at.Some? then line.at else r.at)
  }

  /** The id has rolled over: the line names another client than the request. */
  predicate RollsOver(r: Request, line: Line) {
    r.mac.Some? && line.mac.Some? && MacOf(line) != r.mac
  }

  /** The request of an id that is still open after these lines. */
  function Open(lines: seq<Line>, txid: string): Option<Request> {
    if lines == [] then None
    else
      var line, before := lines[|lines| - 1], Open(lines[..|lines| - 1], txid);
      if line.txid != Some(txid) then before
      else if before.None? || RollsOver(before.value, line) then Some(Put(NewRequest(), line))
      else Some(Put(before.value, line))
  }

  /** The requests of an id that these lines finished. */
  function Finished(lines: seq<Line>, txid: string): set<Request> {
    if lines == [] then {}
    else
      var line, front := lines[|lines| - 1], lines[..|lines| - 1];
      var before := Open(front, txid);
      Finished(front, txid) +
      if line.txid == Some(txid) && before.Some? && RollsOver(before.value, line) then {before.value} else {}
  }

  /** The requests of an id, open or finished, whose client is known. */
  predicate Requested(lines: seq<Line>, txid: string, r: Request) {
    r.mac.Some? && (r in Finished(lines, txid) || Open(lines, txid) == Some(r))
  }

  ghost predicate Happened(lines: seq<Line>, r: Request) {
    exists txid :: Requested(lines, txid, r)
  }

  ghost predicate SomeFinished(lines: seq<Line>, r: Request) {
    exists txid :: r in Finished(lines, txid)
  }

  /** The table of open requests, next to what each id's own lines say. */
  ghost predicate OpenTable(open: map<string, Request>, lines: seq<Line>) {
    forall txid :: Open(lines, txid) == if txid in open then Some(open[txid]) else None
  }

  ghost predicate ClosedList(closed: seq<Request>, lines: seq<Line>) {
    forall r :: r in closed <==> SomeFinished(lines, r)
  }

  lemma {:induction false} FinishedAreNamed(lines: seq<Line>, txid: string)
    ensures forall r | r in Finished(lines, txid) :: r.mac.Some?
  {
    if lines != [] {
      FinishedAreNamed(lines[..|lines| - 1], txid);
    }
  }

  lemma OtherIds(lines: seq<Line>, line: Line, txid: string)
    requires line.txid != Some(txid)
    ensures Open(lines + [line], txid) == Open(lines, txid)
    ensures Finished(lines + [line], txid) == Finished(lines, txid)
  {
    assert (lines + [line])[..|lines|] == lines;
  }

  lemma OwnId(lines: seq<Line>, line: Line, txid: string)
    requires line.txid == Some(txid)
    ensures var before := Open(lines, txid);
            && Open(lines + [line], txid)
               == Some(Put(if before.None? || RollsOver(before.value, line) then NewRequest() else before.value, line))
            && Finished(lines + [line], txid)
               == Finished(lines, txid) + if before.Some? && RollsOver(before.value, line) then {before.value} else {}
  {
    assert (lines + [line])[..|lines|] == lines;
  }

  lemma OpenMore(open: map<string, Request>, lines: seq<Line>, line: Line)
    requires OpenTable(open, lines) && line.txid.Some?
    ensures var txid := line.txid.value;
            var base := if txid in open && !RollsOver(open[txid], line) then open[txid] else NewRequest();
            OpenTable(open[txid := Put(base, line)], lines + [line])
  {
    var txid := line.txid.value;
    var base := if txid in open && !RollsOver(open[txid], line) then open[txid] else NewRequest();
    var more := open[txid := Put(base, line)];
    OwnId(lines, line, txid);
    forall id
      ensures Open(lines + [line], id) == if id in more then Some(more[id]) else None
    {
      if id != txid {
        OtherIds(lines, line, id);
      }
    }
  }

  lemma FinishedMore(lines: seq<Line>, line: Line, r: Request)
    ensures SomeFinished(lines + [line], r) <==>
            SomeFinished(lines, r) ||
            (line.txid.Some? && Open(lines, line.txid.value) == Some(r) && RollsOver(r, line))
  {
    var more := lines + [line];
    if SomeFinished(more, r) {
      var id :| r in Finished(more, id);
      if line.txid == Some(id) {
        OwnId(lines, line, id);
      } else {
        OtherIds(lines, line, id);
      }
    }
    if SomeFinished(lines, r) {
      var id :| r in Finished(lines, id);
      if line.txid == Some(id) {
        OwnId(lines, line, id);
      } else {
        OtherIds(lines, line, id);
      }
      assert r in Finished(more, id);
    }
    if line.txid.Some? && Open(lines, line.txid.value) == Some(r) && RollsOver(r, line) {
      OwnId(lines, line, line.txid.value);
      assert r in Finished(more, line.txid.value);
    }
  }

  lemma ClosedMore(closed: seq<Request>, more: seq<Request>, lines: seq<Line>, line: Line)
    requires ClosedList(closed, lines)
    requires forall r :: r in more <==>
               r in closed || (line.txid.Some? && Open(lines, line.txid.value) == Some(r) && RollsOver(r, line))
    ensures ClosedList(more, lines + [line])
  {
    forall r
      ensures r in more <==> SomeFinished(lines + [line], r)
    {
      FinishedMore(lines, line, r);
    }
  }

  /** A line that carries no transaction id is skipped. */
  lemma SkipLine(open: map<string, Request>, closed: seq<Request>, lines: seq<Line>, line: Line)
    requires OpenTable(open, lines) && ClosedList(closed, lines) && line.txid.None?
    ensures OpenTable(open, lines + [line]) && ClosedList(closed, lines + [line])
  {
    forall txid
      ensures Open(lines + [line], txid) == if txid in open then Some(open[txid]) else None
    {
      OtherIds(lines, line, txid);
    }
    ClosedMore(closed, closed, lines, line);
  }

  /** The requests in the log whose client is known, whichever ids they share. */
  method ReadLog(lines: seq<Line>) returns (closed: seq<Request>)
    ensures forall r :: r in closed <==> Happened(lines, r)
  {
    var open: map<string, Request> := map[];
    closed := [];
    for i := 0 to |lines|
      invariant OpenTable(open, lines[..i]) && ClosedList(closed, lines[..i])
    {
      var line := lines[i];
      assert lines[..i + 1] == lines[..i] + [line];
      if line.txid.None? {
        SkipLine(open, closed, lines[..i], line);
        continue;
      }
      var txid := line.txid.value;
      OpenMore(open, lines[..i], line);
      ghost var before, was := closed, open;
      if txid in open && RollsOver(open[txid], line) {
        closed := closed + [open[txid]];
        open := open - {txid};
      }
      ClosedMore(before, closed, lines[..i], line);
      var r := if txid in open then open[txid] else NewRequest();
      open := open[txid := Put(r, line)];
      assert open == was[txid := Put(r, line)];
    }
    assert lines[..|lines|] == lines;
    closed := FlushAll(open, closed, lines);
  }

  /** At the end of the log every open request is finished, in any order. */
  method FlushAll(open: map<string, Request>, done: seq<Request>, ghost lines: seq<Line>) returns (closed: seq<Request>)
    requires OpenTable(open, lines) && ClosedList(done, lines)
    ensures forall r :: r in closed <==> Happened(lines, r)
  {
    closed := done;
    var rest := open.Keys;
    while rest != {}
      invariant rest <= open.Keys
      invariant forall r :: r in closed <==>
                  r in done || exists txid :: txid in open && txid !in rest && open[txid] == r && r.mac.Some?
    {
      var txid :| txid in rest;
      ghost var before := closed;
      if open[txid].mac.Some? {
        closed := closed + [open[txid]];
      }
      rest := rest - {txid};
      forall r
        ensures r in closed <==>
                r in done || exists id :: id in open && id !in rest && open[id] == r && r.mac.Some?
      {
        assert r in closed <==> r in before || (r == open[txid] && r.mac.Some?);
      }
    }
    forall r
      ensures r in closed <==> Happened(lines, r)
    {
      FlushedHappened(open, done, lines, r);
    }
  }

  lemma FlushedHappened(open: map<string, Request>, done: seq<Request>, lines: seq<Line>, r: Request)
    requires OpenTable(open, lines) && ClosedList(done, lines)
    ensures Happened(lines, r) <==> r in done || exists txid :: txid in open && open[txid] == r && r.mac.Some?
  {
    if Happened(lines, r) {
      var txid :| Requested(lines, txid, r);
      if r in Finished(lines, txid) {
        assert SomeFinished(lines, r);
      } else {
        assert txid in open && open[txid] == r;
      }
    }
    if r in done {
      var txid :| r in Finished(lines, txid);
      FinishedAreNamed(lines, txid);
      assert Requested(lines, txid, r);
    }
    if txid :| txid in open && open[txid] == r && r.mac.Some? {
      assert Requested(lines, txid, r);
    }
  }

  // --- What the requests say about the lines -------------------------------

  predicate InOrder(lines: seq<Line>) {
    forall i, j | 0 <= i < j < |lines| && lines[i].at.Some? && lines[j].at.Some? ::
      lines[i].at.value <= lines[j].at.value
  }

  predicate NotBefore(r: Request, line: Line) {
    line.at.Some? ==> r.at.Some? && line.at.value <= r.at.value
  }

  /**
   * Every line that names a client is part of a request of that client, whose time is
   * no earlier than the line's if the log is in order.
   */
  lemma {:induction false} LineIsCovered(lines: seq<Line>, i: nat, txid: string) returns (r: Request)
    requires i < |lines| && lines[i].txid == Some(txid) && lines[i].mac.Some?
    ensures Requested(lines, txid, r) && r.mac == MacOf(lines[i]) && (InOrder(lines) ==> NotBefore(r, lines[i]))
  {
    var n := |lines| - 1;
    var front, line := lines[..n], lines[n];
    assert lines == front + [line];
    if line.txid == Some(txid) {
      OwnId(front, line, txid);
    } else {
      OtherIds(front, line, txid);
    }
    if i == n {
      r := Open(lines, txid).value;
    } else {
      var before := LineIsCovered(front, i, txid);
      r := before;
      if before !in Finished(front, txid) && line.txid == Some(txid) && !RollsOver(before, line) {
        r := Put(before, line);
      }
    }
  }

  /** And a request's client is named by a line of its id. */
  lemma {:induction false} RequestHasLine(lines: seq<Line>, txid: string, r: Request) returns (i: nat)
    requires Requested(lines, txid, r)
    ensures i < |lines| && lines[i].txid == Some(txid) && lines[i].mac.Some? && MacOf(lines[i]) == r.mac
  {
    var n := |lines| - 1;
    var front, line := lines[..n], lines[n];
    assert lines == front + [line];
    if line.txid != Some(txid) {
      OtherIds(front, line, txid);
      i := RequestHasLine(front, txid, r);
    } else {
      OwnId(front, line, txid);
      var before := Open(front, txid);
      if r in Finished(lines, txid) {
        i := RequestHasLine(front, txid, r);
      } else if line.mac.Some? {
        i := n;
      } else {
        i := RequestHasLine(front, txid, before.value);
      }
    }
  }

  // --- Clients -------------------------------------------------------------

  function NewClient(): Client {
    Client("", "", "", None)
  }

  /** Newer sightings win, older ones fill in blanks. */
  function See(c: Client, s: Sighting): Client {
    if s.at.Some? && (c.at.None? || s.at.value >= c.at.value) then
      Client(Either(s.ip, c.ip), Either(s.hostname, c.hostname), Either(s.firmware, c.firmware), s.at)
    else
      Client(Either(c.ip, s.ip), Either(c.hostname, s.hostname), Either(c.firmware, s.firmware), c.at)
  }

  /** What all sightings of one client add up to. */
  function Seen(h: seq<Sighting>, mac: string): Option<Client> {
    if h == [] then None
    else
      var s, before := h[|h| - 1], Seen(h[..|h| - 1], mac);
      if s.mac != mac then before
      else Some(See(if before.Some? then before.value else NewClient(), s))
  }

  ghost predicate ClientTable(clients: map<string, Client>, h: seq<Sighting>) {
    forall mac :: Seen(h, mac) == if mac in clients then Some(clients[mac]) else None
  }

  lemma ClientsMore(clients: map<string, Client>, h: seq<Sighting>, s: Sighting)
    requires ClientTable(clients, h)
    ensures var c := if s.mac in clients then clients[s.mac] else NewClient();
            ClientTable(clients[s.mac := See(c, s)], h + [s])
  {
    var more := h + [s];
    assert more[..|h|] == h && more[|h|] == s;
  }

  function OfRequest(r: Request): Sighting
    requires r.mac.Some?
  {
    Sighting(r.mac.value, r.ip, r.hostname, r.firmware, r.at)
  }

  predicate Dated(e: BootEvent) {
    e.mac != "" && e.when.Some?
  }

  function OfEvent(e: BootEvent): Sighting {
    Sighting(Lower(e.mac), e.ip, "", "", e.when)
  }

  function OfRequests(rs: seq<Request>): (h: seq<Sighting>)
    requires forall r | r in rs :: r.mac.Some?
    ensures |h| == |rs| && forall i | 0 <= i < |h| :: h[i] == OfRequest(rs[i])
  {
    seq(|rs|, i requires 0 <= i < |rs| => OfRequest(rs[i]))
  }

  function OfEvents(es: seq<BootEvent>): (h: seq<Sighting>)
    ensures forall s :: s in h <==> exists e | e in es :: Dated(e) && s == OfEvent(e)
  {
    if es == [] then []
    else
      var e, front := es[|es| - 1], es[..|es| - 1];
      assert forall o | o in es :: o == e || o in front;
      OfEvents(front) + if Dated(e) then [OfEvent(e)] else []
  }

  method FoldRequests(closed: seq<Request>) returns (clients: map<string, Client>)
    requires forall r | r in closed :: r.mac.Some?
    ensures ClientTable(clients, OfRequests(closed))
  {
    clients := map[];
    ghost var h := OfRequests(closed);
    for i := 0 to |closed|
      invariant ClientTable(clients, h[..i])
    {
      var t := closed[i];
      assert t in closed;
      var mac := t.mac.value;
      var c := if mac in clients then clients[mac] else NewClient();
      ClientsMore(clients, h[..i], h[i]);
      assert h[..i + 1] == h[..i] + [h[i]];
      if t.at.Some? && (c.at.None? || t.at.value >= c.at.value) {
        c := Client(Either(t.ip, c.ip), Either(t.hostname, c.hostname), Either(t.firmware, c.firmware), t.at);
      } else {
        c := Client(Either(c.ip, t.ip), Either(c.hostname, t.hostname), Either(c.firmware, t.firmware), c.at);
      }
      clients := clients[mac := c];
    }
    assert h[..|closed|] == h;
  }

  method FoldEvents(start: map<string, Client>, events: seq<BootEvent>, ghost h: seq<Sighting>)
    returns (clients: map<string, Client>)
    requires ClientTable(start, h)
    ensures ClientTable(clients, h + OfEvents(events))
  {
    clients := start;
    assert h + OfEvents(events[..0]) == h;
    for i := 0 to |events|
      invariant ClientTable(clients, h + OfEvents(events[..i]))
    {
      var e := events[i];
      ghost var sofar := OfEvents(events[..i]);
      assert events[..i + 1][..i] == events[..i];
      if e.mac == "" || e.when.None? {
        assert sofar + [] == sofar;
        continue;
      }
      var mac, when := Lower(e.mac), e.when.value;
      var c := if mac in clients then clients[mac] else NewClient();
      ClientsMore(clients, h + sofar, OfEvent(e));
      assert h + (sofar + [OfEvent(e)]) == h + sofar + [OfEvent(e)];
      if c.at.None? || when >= c.at.value {
        c := c.(at := Some(when), ip := Either(e.ip, c.ip));
      } else {
        c := c.(ip := Either(c.ip, e.ip));
      }
      clients := clients[mac := c];
    }
    assert events[..|events|] == events;
  }

  // --- What a row says -----------------------------------------------------

  predicate IsSeen(h: seq<Sighting>, mac: string) {
    exists s | s in h :: s.mac == mac
  }

  /** The latest time of any sighting; nothing when none is dated. */
  ghost predicate IsLatest(h: seq<Sighting>, mac: string, at: Option<int>) {
    && (at.Some? ==> exists s | s in h :: s.mac == mac && s.at == at)
    && (forall s | s in h && s.mac == mac && s.at.Some? :: at.Some? && s.at.value <= at.value)
  }

  lemma {:induction false} SeenIsLatest(h: seq<Sighting>, mac: string)
    ensures Seen(h, mac).Some? <==> IsSeen(h, mac)
    ensures Seen(h, mac).Some? ==> IsLatest(h, mac, Seen(h, mac).value.at)
  {
    if h != [] {
      var front, s := h[..|h| - 1], h[|h| - 1];
      SeenIsLatest(front, mac);
      assert s in h && forall o | o in front :: o in h;
      assert forall o | o in h :: o == s || o in front;
    }
  }

  /** A blank stays blank only if no sighting had anything to say. */
  lemma {:induction false} NothingIsLost(h: seq<Sighting>, mac: string, s: Sighting)
    requires s in h && s.mac == mac
    ensures Seen(h, mac).Some?
    ensures var c := Seen(h, mac).value;
            && (s.ip != "" ==> c.ip != "")
            && (s.hostname != "" ==> c.hostname != "")
            && (s.firmware != "" ==> c.firmware != "")
  {
    var front, last := h[..|h| - 1], h[|h| - 1];
    if s in front {
      NothingIsLost(front, mac, s);
    } else {
      assert s == last;
    }
  }

  // --- Where what is shown comes from --------------------------------------

  datatype Field = Ip | Hostname | Firmware

  function Given(s: Sighting, f: Field): string {
    match f
    case Ip => s.ip
    case Hostname => s.hostname
    case Firmware => s.firmware
  }

  function Of(c: Client, f: Field): string {
    match f
    case Ip => c.ip
    case Hostname => c.hostname
    case Firmware => c.firmware
  }

  /** No earlier sighting of the client is newer, and every later one that says something is older. */
  predicate Decides(h: seq<Sighting>, k: nat, f: Field) {
    && k < |h| && h[k].at.Some? && Given(h[k], f) != ""
    && (forall j | 0 <= j < k && h[j].mac == h[k].mac && h[j].at.Some? :: h[j].at.value <= h[k].at.value)
    && (forall j | k < j < |h| && h[j].mac == h[k].mac && Given(h[j], f) != "" ::
          h[j].at.None? || h[j].at.value < h[k].at.value)
  }

  /** Such a sighting is where the shown address, host name or firmware comes from. */
  lemma {:induction false} ShownComesFrom(h: seq<Sighting>, k: nat, f: Field)
    requires Decides(h, k, f)
    ensures Seen(h, h[k].mac).Some? && Of(Seen(h, h[k].mac).value, f) == Given(h[k], f)
    ensures Seen(h, h[k].mac).value.at.Some? && Seen(h, h[k].mac).value.at.value >= h[k].at.value
    decreases |h|
  {
    var n := |h| - 1;
    var front := h[..n];
    SeenIsLatest(front, h[k].mac);
    if k < n {
      ShownComesFrom(front, k, f);
    } else {
      assert forall s | s in front :: exists j | 0 <= j < k :: h[j] == s;
    }
  }

  /** In a history in order of time it is the last sighting that says anything. */
  lemma LastWordShown(h: seq<Sighting>, k: nat, f: Field)
    requires k < |h| && Given(h[k], f) != ""
    requires forall i | 0 <= i < |h| && h[i].mac == h[k].mac :: h[i].at.Some?
    requires forall i, j | 0 <= i < j < |h| && h[i].mac == h[j].mac == h[k].mac :: h[i].at.value <= h[j].at.value
    requires forall j | k < j < |h| && h[j].mac == h[k].mac :: Given(h[j], f) == ""
    ensures Seen(h, h[k].mac).Some? && Of(Seen(h, h[k].mac).value, f) == Given(h[k], f)
  {
    ShownComesFrom(h, k, f);
  }

  /** What a line says about its client: an address of zeros is none. */
  function Says(line: Line, f: Field): string {
    match f
    case Ip => if line.ip == NO_ADDRESS then "" else line.ip
    case Hostname => line.hostname
    case Firmware => line.firmware
  }

  function In(r: Request, f: Field): string {
    match f
    case Ip => r.ip
    case Hostname => r.hostname
    case Firmware => r.firmware
  }

  /** From line `i` on no line of the id names another client. */
  predicate NamesOnly(lines: seq<Line>, i: nat, txid: string, mac: Option<string>) {
    forall j | i <= j < |lines| && lines[j].txid == Some(txid) && lines[j].mac.Some? :: MacOf(lines[j]) == mac
  }

  /** No request has anything of another client's: what it says is in a line of its own. */
  lemma {:induction false} SaidByOwnLine(lines: seq<Line>, txid: string, f: Field) returns (i: nat)
    requires Open(lines, txid).Some? && In(Open(lines, txid).value, f) != ""
    ensures i < |lines| && lines[i].txid == Some(txid) && Says(lines[i], f) == In(Open(lines, txid).value, f)
    ensures NamesOnly(lines, i, txid, Open(lines, txid).value.mac)
  {
    var n := |lines| - 1;
    var front, line := lines[..n], lines[n];
    assert lines == front + [line];
    if line.txid != Some(txid) {
      OtherIds(front, line, txid);
      i := SaidByOwnLine(front, txid, f);
    } else {
      OwnId(front, line, txid);
      if Says(line, f) != "" {
        i := n;
      } else {
        i := SaidByOwnLine(front, txid, f);
      }
    }
  }

  lemma OwnLineSays(lines: seq<Line>, line: Line, txid: string, f: Field)
    requires line.txid == Some(txid)
    ensures var before, after := Open(lines, txid), Open(lines + [line], txid);
      && after.Some?
      && (Says(line, f) != "" ==> In(after.value, f) == Says(line, f))
      && (Says(line, f) == "" && before.Some? && !RollsOver(before.value, line) ==>
          In(after.value, f) == In(before.value, f))
  {
    OwnId(lines, line, txid);
  }

  /** And the last line that says anything decides. */
  lemma {:induction false} LastLineDecides(lines: seq<Line>, k: nat, txid: string, f: Field)
    requires k < |lines| && lines[k].txid == Some(txid) && Says(lines[k], f) != ""
    requires forall j | k < j < |lines| && lines[j].txid == Some(txid) :: Says(lines[j], f) == ""
    requires forall j | k < j < |lines| && lines[j].txid == Some(txid) ::
               var before := Open(lines[..j], txid); before.Some? && !RollsOver(before.value, lines[j])
    ensures Open(lines, txid).Some? && In(Open(lines, txid).value, f) == Says(lines[k], f)
    decreases |lines|
  {
    var n := |lines| - 1;
    var front, line := lines[..n], lines[n];
    assert lines == front + [line];
    if line.txid != Some(txid) {
      OtherIds(front, line, txid);
    }
    if k == n {
      OwnLineSays(front, line, txid, f);
    } else {
      assert forall j | k < j < n :: front[j] == lines[j] && front[..j] == lines[..j];
      LastLineDecides(front, k, txid, f);
      if line.txid == Some(txid) {
        assert front == lines[..n];
        OwnLineSays(front, line, txid, f);
      }
    }
  }

  // --- The rows that are shown ---------------------------------------------

  /** Not seen at all counts as longest ago. */
  predicate NoNewer(a: Option<int>, b: Option<int>) {
    a.None? || (b.Some? && a.value <= b.value)
  }

  ghost predicate Shown(rows: seq<Row>, clients: map<string, Client>) {
    && (forall i | 0 <= i < |rows| :: rows[i].mac in clients && rows[i].client == clients[rows[i].mac])
    && (forall i, j | 0 <= i < j < |rows| ::
          rows[i].mac != rows[j].mac && NoNewer(rows[j].client.at, rows[i].client.at))
  }

  predicate IsShown(rows: seq<Row>, mac: string) {
    exists i | 0 <= i < |rows| :: rows[i].mac == mac
  }

  lemma ShownMore(rows: seq<Row>, row: Row, mac: string)
    ensures IsShown(rows + [row], mac) <==> IsShown(rows, mac) || row.mac == mac
  {
    var more := rows + [row];
    assert more[|rows|] == row;
    if IsShown(rows, mac) {
      var i :| 0 <= i < |rows| && rows[i].mac == mac;
      assert more[i].mac == mac;
    }
  }

  /** No client that is left out was seen later than one that is shown. */
  ghost predicate Rest(rows: seq<Row>, clients: map<string, Client>, rest: set<string>) {
    && (forall mac :: mac in rest <==> mac in clients && !IsShown(rows, mac))
    && (forall mac, i | mac in rest && mac in clients && 0 <= i < |rows| :: NoNewer(clients[mac].at, rows[i].client.at))
  }

  method PickNewest(clients: map<string, Client>, among: set<string>) returns (mac: string)
    requires among != {} && among <= clients.Keys
    ensures mac in among && forall o | o in among :: NoNewer(clients[o].at, clients[mac].at)
  {
    mac :| mac in among;
    var left := among - {mac};
    while left != {}
      invariant left <= among && mac in among
      invariant forall o | o in among && o !in left :: NoNewer(clients[o].at, clients[mac].at)
    {
      var o :| o in left;
      if !NoNewer(clients[o].at, clients[mac].at) {
        mac := o;
      }
      left := left - {o};
    }
  }

  method TopRows(clients: map<string, Client>, limit: nat) returns (rows: seq<Row>, rest: set<string>)
    ensures Shown(rows, clients) && Rest(rows, clients, rest)
    ensures |rows| <= limit && (rest != {} ==> |rows| == limit)
  {
    rows, rest := [], clients.Keys;
    while |rows| < limit && rest != {}
      invariant |rows| <= limit && rest <= clients.Keys
      invariant Shown(rows, clients) && Rest(rows, clients, rest)
      decreases limit - |rows|
    {
      var mac := PickNewest(clients, rest);
      forall m
        ensures IsShown(rows + [Row(mac, clients[mac])], m) <==> IsShown(rows, m) || m == mac
      {
        ShownMore(rows, Row(mac, clients[mac]), m);
      }
      rows := rows + [Row(mac, clients[mac])];
      rest := rest - {mac};
    }
  }

  /** The sightings a call goes by: the log's requests and the dated boot events. */
  ghost predicate Sightings(h: seq<Sighting>, lines: seq<Line>, events: seq<BootEvent>) {
    forall s :: s in h <==>
      (exists r :: Happened(lines, r) && s == FromRequest(r)) || (exists e | e in events :: Dated(e) && s == OfEvent(e))
  }

  function FromRequest(r: Request): Sighting {
    if r.mac.Some? then OfRequest(r) else Sighting("", "", "", "", None)
  }

  method Recent(lines: seq<Line>, events: seq<BootEvent>, limit: nat)
    returns (rows: seq<Row>, ghost clients: map<string, Client>, ghost h: seq<Sighting>)
    ensures Sightings(h, lines, events) && ClientTable(clients, h)
    ensures Shown(rows, clients) && Rest(rows, clients, clients.Keys - (set i | 0 <= i < |rows| :: rows[i].mac))
    ensures |rows| <= limit && (|rows| < limit ==> forall mac | mac in clients :: IsShown(rows, mac))
  {
    var closed := ReadLog(lines);
    forall r | r in closed
      ensures r.mac.Some?
    {
      assert Happened(lines, r);
    }
    h := OfRequests(closed) + OfEvents(events);
    var log := FoldRequests(closed);
    var all := FoldEvents(log, events, OfRequests(closed));
    clients := all;
    var rest: set<string>;
    rows, rest := TopRows(all, limit);
    assert rest == clients.Keys - (set i | 0 <= i < |rows| :: rows[i].mac);
    forall s
      ensures s in h <==>
              || (exists r :: Happened(lines, r) && s == FromRequest(r))
              || (exists e | e in events :: Dated(e) && s == OfEvent(e))
    {
      SightingOfLog(closed, lines, s);
    }
  }

  lemma SightingOfLog(closed: seq<Request>, lines: seq<Line>, s: Sighting)
    requires forall r :: r in closed <==> Happened(lines, r)
    requires forall r | r in closed :: r.mac.Some?
    ensures s in OfRequests(closed) <==> exists r :: Happened(lines, r) && s == FromRequest(r)
  {
    var h := OfRequests(closed);
    if s in h {
      var i :| 0 <= i < |h| && h[i] == s;
      assert closed[i] in closed && Happened(lines, closed[i]);
    }
    if r :| Happened(lines, r) && s == FromRequest(r) {
      assert r in closed;
      var i :| 0 <= i < |closed| && closed[i] == r;
      assert h[i] == s;
    }
  }

  // --- What it all means for the log ---------------------------------------

  predicate InLog(lines: seq<Line>, mac: string) {
    exists i | 0 <= i < |lines| :: lines[i].txid.Some? && MacOf(lines[i]) == Some(mac)
  }

  predicate InEvents(events: seq<BootEvent>, mac: string) {
    exists e | e in events :: Dated(e) && Lower(e.mac) == mac
  }

  /** One entry per client: exactly those named by a line with an id or by a dated boot event. */
  lemma ClientsAreTheNamed(
      h: seq<Sighting>, lines: seq<Line>, events: seq<BootEvent>, clients: map<string, Client>, mac: string)
    requires Sightings(h, lines, events) && ClientTable(clients, h)
    ensures mac in clients <==> InLog(lines, mac) || InEvents(events, mac)
  {
    SeenIsLatest(h, mac);
    assert Seen(h, mac).Some? <==> mac in clients;
    if IsSeen(h, mac) {
      NamedSomewhere(h, lines, events, mac);
    }
    if InLog(lines, mac) {
      var i :| 0 <= i < |lines| && lines[i].txid.Some? && MacOf(lines[i]) == Some(mac);
      var r := LineIsCovered(lines, i, lines[i].txid.value);
      assert Happened(lines, r) && FromRequest(r) in h;
    }
    if InEvents(events, mac) {
      var e :| e in events && Dated(e) && Lower(e.mac) == mac;
      assert OfEvent(e) in h;
    }
  }

  lemma NamedSomewhere(h: seq<Sighting>, lines: seq<Line>, events: seq<BootEvent>, mac: string)
    requires Sightings(h, lines, events) && IsSeen(h, mac)
    ensures InLog(lines, mac) || InEvents(events, mac)
  {
    var s :| s in h && s.mac == mac;
    if r :| Happened(lines, r) && s == FromRequest(r) {
      var txid :| Requested(lines, txid, r);
      var i := RequestHasLine(lines, txid, r);
      assert MacOf(lines[i]) == Some(mac);
    } else {
      var e :| e in events && Dated(e) && s == OfEvent(e);
    }
  }

  /** Last seen: the latest of the client's requests and boot events, whatever ids they share. */
  lemma LastSeenIsLatest(
      h: seq<Sighting>, lines: seq<Line>, events: seq<BootEvent>, clients: map<string, Client>, mac: string)
    requires Sightings(h, lines, events) && ClientTable(clients, h) && mac in clients
    ensures var at := clients[mac].at;
            && (forall r | Happened(lines, r) && r.mac == Some(mac) && r.at.Some? :: at.Some? && r.at.value <= at.value)
            && (forall e | e in events && Dated(e) && Lower(e.mac) == mac :: at.Some? && e.when.value <= at.value)
            && (at.Some? ==> (exists r :: Happened(lines, r) && r.mac == Some(mac) && r.at == at)
                             || (exists e | e in events :: Dated(e) && Lower(e.mac) == mac && e.when == at))
  {
    SeenIsLatest(h, mac);
    assert Seen(h, mac) == Some(clients[mac]);
    var at := clients[mac].at;
    forall r | Happened(lines, r) && r.mac == Some(mac) && r.at.Some?
      ensures at.Some? && r.at.value <= at.value
    {
      assert FromRequest(r) in h;
    }
    forall e | e in events && Dated(e) && Lower(e.mac) == mac
      ensures at.Some? && e.when.value <= at.value
    {
      assert OfEvent(e) in h;
    }
    if at.Some? {
      var s :| s in h && s.mac == mac && s.at == at;
      if r :| Happened(lines, r) && s == FromRequest(r) {
        assert r.mac.Some?;
      }
    }
  }

  /** In a log in order of time, a client is never shown as last seen before a line that names it. */
  lemma NoLineIsLater(
      h: seq<Sighting>, lines: seq<Line>, events: seq<BootEvent>, clients: map<string, Client>, i: nat)
    requires Sightings(h, lines, events) && ClientTable(clients, h) && InOrder(lines)
    requires i < |lines| && lines[i].txid.Some? && lines[i].mac.Some? && lines[i].at.Some?
    ensures var mac := MacOf(lines[i]).value;
            mac in clients && clients[mac].at.Some? && lines[i].at.value <= clients[mac].at.value
  {
    var mac := MacOf(lines[i]).value;
    ClientsAreTheNamed(h, lines, events, clients, mac);
    LastSeenIsLatest(h, lines, events, clients, mac);
    var r := LineIsCovered(lines, i, lines[i].txid.value);
    assert Happened(lines, r);
  }
}
