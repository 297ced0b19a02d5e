/** ListComputers and ListMobileDevices, loop by loop. */
module PagingProgram {
  import opened Basics
  import opened Sorting
  import opened PlannerModel
  import opened PagingModel

  datatype ComputerRecord = ComputerRecord(
    id: string, name: string, reportDate: string, lastCheckIn: string, lastContact: string, lastEnrolledDate: string,
    model: string, serialNumber: string, version: string, username: string, email: string)

  datatype MobileRecord = MobileRecord(
    id: string, deviceType: string, displayName: string, lastInventoryUpdateDate: string, lastContactDate: string,
    lastEnrolledDate: string, osVersion: string, serialNumber: string, model: string, username: string,
    emailAddress: string)

  /** Library functions: trimming white space, and reading a timestamp (0 is the zero time). */
  datatype Reader = Reader(trim: string -> string, timestamp: string -> int)

  function FirstNonEmpty(r: Reader, values: seq<string>): string {
    if values == [] then "" else if r.trim(values[0]) != "" then r.trim(values[0]) else FirstNonEmpty(r, values[1..])
  }

  function FirstTimestamp(r: Reader, values: seq<string>): int {
    if values == [] then 0
    else if r.timestamp(values[0]) != 0 then r.timestamp(values[0])
    else FirstTimestamp(r, values[1..])
  }

  function ComputerDevice(r: Reader, source: string, c: ComputerRecord): Device {
    Device(source, "computers", c.id, c.name, c.serialNumber, "macos", r.timestamp(c.lastEnrolledDate),
           FirstNonEmpty(r, [c.email, c.username]), c.model, c.version,
           FirstTimestamp(r, [c.lastContact, c.lastCheckIn, c.reportDate]), map[])
  }

  function MobileDevice(r: Reader, source: string, m: MobileRecord): Device {
    Device(source, "mobile_devices", m.id, m.displayName, m.serialNumber, "ios", r.timestamp(m.lastEnrolledDate),
           FirstNonEmpty(r, [m.emailAddress, m.username]), m.model, m.osVersion,
           FirstTimestamp(r, [m.lastContactDate, m.lastInventoryUpdateDate]), map[])
  }

  /** Equal to "ios" under simple case folding, which also folds the long s. */
  predicate FoldsToIos(s: string) {
    |s| == 3 && s[0] in "iI" && s[1] in "oO" && s[2] in "sS\U{017F}"
  }

  predicate SpellsIos(s: string) {
    s in ["ios", "ioS", "iOs", "iOS", "Ios", "IoS", "IOs", "IOS",
          "io\U{017F}", "iO\U{017F}", "Io\U{017F}", "IO\U{017F}"]
  }

  lemma FoldsExactly(s: string)
    ensures FoldsToIos(s) <==> SpellsIos(s)
  {
    if FoldsToIos(s) {
      assert s == [s[0], s[1], s[2]];
      assert s[0] == 'i' || s[0] == 'I';
      assert s[1] == 'o' || s[1] == 'O';
      assert s[2] == 's' || s[2] == 'S' || s[2] == '\U{017F}';
    }
  }

  /** The first text that is not blank, trimmed. */
  predicate FirstText(r: Reader, first: string, second: string, text: string) {
    text == if r.trim(first) != "" then r.trim(first) else r.trim(second)
  }

  predicate ReadsComputer(r: Reader, source: string, c: ComputerRecord, d: Device) {
    && d.source == source && d.namespace == "computers" && d.id == c.id && d.platform == "macos"
    && d.currentName == c.name && d.serialNumber == c.serialNumber && d.model == c.model && d.osVersion == c.version
    && FirstText(r, c.email, c.username, d.userID) && d.attributes == map[]
    && d.enrolledAt == r.timestamp(c.lastEnrolledDate)
    && d.lastSeenAt == if r.timestamp(c.lastContact) != 0 then r.timestamp(c.lastContact)
                       else if r.timestamp(c.lastCheckIn) != 0 then r.timestamp(c.lastCheckIn)
                       else r.timestamp(c.reportDate)
  }

  predicate ReadsMobile(r: Reader, source: string, m: MobileRecord, d: Device) {
    && d.source == source && d.namespace == "mobile_devices" && d.id == m.id && d.platform == "ios"
    && d.currentName == m.displayName && d.serialNumber == m.serialNumber && d.model == m.model
    && d.osVersion == m.osVersion && FirstText(r, m.emailAddress, m.username, d.userID) && d.attributes == map[]
    && d.enrolledAt == r.timestamp(m.lastEnrolledDate)
    && d.lastSeenAt == if r.timestamp(m.lastContactDate) != 0 then r.timestamp(m.lastContactDate)
                       else r.timestamp(m.lastInventoryUpdateDate)
  }

  lemma FirstOfMore(r: Reader, first: string, rest: seq<string>)
    ensures FirstNonEmpty(r, [first] + rest) == if r.trim(first) != "" then r.trim(first) else FirstNonEmpty(r, rest)
    ensures FirstTimestamp(r, [first] + rest)
            == if r.timestamp(first) != 0 then r.timestamp(first) else FirstTimestamp(r, rest)
  {
    assert ([first] + rest)[1..] == rest;
  }

  lemma FirstOfTwo(r: Reader, first: string, second: string)
    ensures FirstText(r, first, second, FirstNonEmpty(r, [first, second]))
    ensures FirstTimestamp(r, [first, second])
            == if r.timestamp(first) != 0 then r.timestamp(first) else r.timestamp(second)
  {
    FirstOfMore(r, first, [second]);
    FirstOfMore(r, second, []);
    assert [first] + [second] == [first, second] && [second] + [] == [second];
  }

  lemma ComputerReads(r: Reader, source: string, c: ComputerRecord)
    ensures ReadsComputer(r, source, c, ComputerDevice(r, source, c))
  {
    FirstOfTwo(r, c.email, c.username);
    FirstOfTwo(r, c.lastCheckIn, c.reportDate);
    FirstOfMore(r, c.lastContact, [c.lastCheckIn, c.reportDate]);
    assert [c.lastContact] + [c.lastCheckIn, c.reportDate] == [c.lastContact, c.lastCheckIn, c.reportDate];
  }

  lemma MobileReads(r: Reader, source: string, m: MobileRecord)
    ensures ReadsMobile(r, source, m, MobileDevice(r, source, m))
  {
    FirstOfTwo(r, m.emailAddress, m.username);
    FirstOfTwo(r, m.lastContactDate, m.lastInventoryUpdateDate);
  }

  function ComputerDevices(r: Reader, source: string, rows: seq<ComputerRecord>): seq<Device> {
    if rows == [] then []
    else ComputerDevices(r, source, rows[..|rows| - 1]) + [ComputerDevice(r, source, rows[|rows| - 1])]
  }

  /** The supported ones, in order. */
  function MobileDevices(r: Reader, source: string, rows: seq<MobileRecord>): seq<Device> {
    if rows == [] then []
    else
      var last := rows[|rows| - 1];
      MobileDevices(r, source, rows[..|rows| - 1])
        + (if FoldsToIos(last.deviceType) then [MobileDevice(r, source, last)] else [])
  }

  lemma IDsExtend<Row>(rows: seq<Row>, row: Row, id: Row -> string)
    ensures IDs(rows + [row], id) == IDs(rows, id) + [id(row)]
    ensures GoodIDs(rows + [row], id) <==> GoodIDs(rows, id) && id(row) != "" && id(row) !in IDs(rows, id)
  {
    var longer := IDs(rows + [row], id);
    assert longer == IDs(rows, id) + [id(row)];
    if GoodIDs(rows + [row], id) {
      assert IDs(rows, id) == longer[..|rows|];
      assert longer[|rows|] == id(row);
      forall i | 0 <= i < |rows| ensures IDs(rows, id)[i] != id(row) {
        assert longer[i] != longer[|rows|];
      }
    }
  }

  /** The rows of one page, as far as position `k`, after those already seen. */
  function Upto<Row>(before: seq<Row>, rows: seq<Row>, k: nat): seq<Row>
    requires k <= |rows|
  {
    before + rows[..k]
  }

  lemma UptoNext<Row>(before: seq<Row>, rows: seq<Row>, k: nat)
    requires k < |rows|
    ensures Upto(before, rows, k + 1) == Upto(before, rows, k) + [rows[k]]
    ensures Upto(before, rows, |rows|) == before + rows
    ensures Upto(before, rows, k + 1) <= before + rows
  {
  }

  /** The rows as far as position `k` have distinct, non-empty IDs, which are those in `taken`. */
  ghost predicate Taking<Row>(before: seq<Row>, rows: seq<Row>, k: nat, id: Row -> string, taken: set<string>) {
    k <= |rows| && GoodIDs(Upto(before, rows, k), id) && taken == Elements(IDs(Upto(before, rows, k), id))
  }

  lemma RowIsBad<Row>(before: seq<Row>, rows: seq<Row>, k: nat, id: Row -> string, taken: set<string>)
    requires Taking(before, rows, k, id, taken) && k < |rows| && (id(rows[k]) == "" || id(rows[k]) in taken)
    ensures !GoodIDs(before + rows, id)
    ensures BadRow(before, rows, id, k, if id(rows[k]) == "" then MissingID else DuplicateID)
  {
    UptoNext(before, rows, k);
    IDsExtend(Upto(before, rows, k), rows[k], id);
    if GoodIDs(before + rows, id) {
      GoodPrefix(Upto(before, rows, k + 1), before + rows, id);
    }
  }

  lemma RowIsTaken<Row>(before: seq<Row>, rows: seq<Row>, k: nat, id: Row -> string, taken: set<string>)
    requires Taking(before, rows, k, id, taken) && k < |rows| && id(rows[k]) != "" && id(rows[k]) !in taken
    ensures Taking(before, rows, k + 1, id, taken + {id(rows[k])})
  {
    UptoNext(before, rows, k);
    IDsExtend(Upto(before, rows, k), rows[k], id);
  }

  lemma AllTaken<Row>(before: seq<Row>, rows: seq<Row>, id: Row -> string, taken: set<string>)
    requires Taking(before, rows, |rows|, id, taken)
    ensures GoodIDs(before + rows, id) && taken == Elements(IDs(before + rows, id))
    ensures Upto(before, rows, |rows|) == before + rows
  {
    assert Upto(before, rows, |rows|) == before + rows;
  }

  lemma DevicesFollow(r: Reader, source: string, before: seq<ComputerRecord>, rows: seq<ComputerRecord>, k: nat)
    requires k < |rows|
    ensures ComputerDevices(r, source, Upto(before, rows, k + 1))
            == ComputerDevices(r, source, Upto(before, rows, k)) + [ComputerDevice(r, source, rows[k])]
  {
    var next := Upto(before, rows, k + 1);
    UptoNext(before, rows, k);
    assert next[..|next| - 1] == Upto(before, rows, k);
  }

  lemma MobilesFollow(r: Reader, source: string, before: seq<MobileRecord>, rows: seq<MobileRecord>, k: nat)
    requires k < |rows|
    ensures MobileDevices(r, source, Upto(before, rows, k + 1))
            == MobileDevices(r, source, Upto(before, rows, k))
               + (if FoldsToIos(rows[k].deviceType) then [MobileDevice(r, source, rows[k])] else [])
  {
    var next := Upto(before, rows, k + 1);
    UptoNext(before, rows, k);
    assert next[..|next| - 1] == Upto(before, rows, k);
  }

  const COMPUTER_ID := (c: ComputerRecord) => c.id
  const MOBILE_ID := (m: MobileRecord) => m.id

  /** The inner loop: checks each row's ID and appends its device. */
  method TakeComputers(r: Reader, source: string, rows: seq<ComputerRecord>, ids: set<string>, devices: seq<Device>,
                       ghost before: seq<ComputerRecord>)
    returns (error: Option<PageError>, taken: set<string>, listed: seq<Device>)
    requires GoodIDs(before, COMPUTER_ID) && ids == Elements(IDs(before, COMPUTER_ID))
    requires devices == ComputerDevices(r, source, before)
    ensures error.None? <==> GoodIDs(before + rows, COMPUTER_ID)
    ensures error.Some? ==> exists k: nat :: BadRow(before, rows, COMPUTER_ID, k, error.value)
    ensures error.None? ==>
              taken == Elements(IDs(before + rows, COMPUTER_ID)) && listed == ComputerDevices(r, source, before + rows)
  {
    taken, listed := ids, devices;
    var k := 0;
    assert Upto(before, rows, 0) == before;
    while k < |rows|
      invariant 0 <= k <= |rows| && Taking(before, rows, k, COMPUTER_ID, taken)
      invariant listed == ComputerDevices(r, source, Upto(before, rows, k))
    {
      if rows[k].id == "" || rows[k].id in taken {
        RowIsBad(before, rows, k, COMPUTER_ID, taken);
        return Some(if rows[k].id == "" then MissingID else DuplicateID), taken, listed;
      }
      RowIsTaken(before, rows, k, COMPUTER_ID, taken);
      DevicesFollow(r, source, before, rows, k);
      taken := taken + {rows[k].id};
      listed := listed + [ComputerDevice(r, source, rows[k])];
      k := k + 1;
    }
    AllTaken(before, rows, COMPUTER_ID, taken);
    error := None;
  }

  method TakeMobiles(r: Reader, source: string, rows: seq<MobileRecord>, ids: set<string>, devices: seq<Device>,
                     ghost before: seq<MobileRecord>)
    returns (error: Option<PageError>, taken: set<string>, listed: seq<Device>)
    requires GoodIDs(before, MOBILE_ID) && ids == Elements(IDs(before, MOBILE_ID))
    requires devices == MobileDevices(r, source, before)
    ensures error.None? <==> GoodIDs(before + rows, MOBILE_ID)
    ensures error.Some? ==> exists k: nat :: BadRow(before, rows, MOBILE_ID, k, error.value)
    ensures error.None? ==>
              taken == Elements(IDs(before + rows, MOBILE_ID)) && listed == MobileDevices(r, source, before + rows)
  {
    taken, listed := ids, devices;
    var k := 0;
    assert Upto(before, rows, 0) == before;
    while k < |rows|
      invariant 0 <= k <= |rows| && Taking(before, rows, k, MOBILE_ID, taken)
      invariant listed == MobileDevices(r, source, Upto(before, rows, k))
    {
      if rows[k].id == "" || rows[k].id in taken {
        RowIsBad(before, rows, k, MOBILE_ID, taken);
        return Some(if rows[k].id == "" then MissingID else DuplicateID), taken, listed;
      }
      RowIsTaken(before, rows, k, MOBILE_ID, taken);
      MobilesFollow(r, source, before, rows, k);
      taken := taken + {rows[k].id};
      if FoldsToIos(rows[k].deviceType) {
        listed := listed + [MobileDevice(r, source, rows[k])];
      }
      k := k + 1;
    }
    AllTaken(before, rows, MOBILE_ID, taken);
    error := None;
  }

  /** How many requests a listing may take before it must end. */
  ghost predicate Prompt<Row>(server: nat -> Response<Row>, requests: nat) {
    requests <= 1 || (server(0).Page? && requests <= server(0).total)
  }

  lemma {:induction false} OneDeviceEach(r: Reader, source: string, rows: seq<ComputerRecord>)
    ensures |ComputerDevices(r, source, rows)| == |rows|
    ensures forall i | 0 <= i < |rows| :: ReadsComputer(r, source, rows[i], ComputerDevices(r, source, rows)[i])
  {
    if rows != [] {
      OneDeviceEach(r, source, rows[..|rows| - 1]);
      ComputerReads(r, source, rows[|rows| - 1]);
    }
  }

  /** What the loop holds after `n` pages. */
  ghost predicate ComputersRead(r: Reader, source: string, server: nat -> Response<ComputerRecord>, n: nat,
                                total: int, ids: set<string>, devices: seq<Device>) {
    && total == (if n > 0 && server(0).Page? then server(0).total else -1)
    && devices == ComputerDevices(r, source, RowsOf(server, n)) && |devices| == |RowsOf(server, n)|
    && ids == Elements(IDs(RowsOf(server, n), COMPUTER_ID))
  }

  /** One turn of the outer loop: requests page `n`, checks it and takes its rows. */
  method ReadComputers(r: Reader, source: string, server: nat -> Response<ComputerRecord>, n: nat,
                       total: int, ids: set<string>, devices: seq<Device>)
    returns (error: Option<PageError>, agreed: int, taken: set<string>, listed: seq<Device>)
    requires Partial(server, n, COMPUTER_ID) && ComputersRead(r, source, server, n, total, ids, devices)
    ensures error.None? <==> Accepted(server, n, COMPUTER_ID)
    ensures error.Some? ==> Refuses(server, n, COMPUTER_ID, error.value)
    ensures error.None? ==> ComputersRead(r, source, server, n + 1, agreed, taken, listed)
  {
    agreed, taken, listed := total, ids, devices;
    var response := server(n);
    if !response.Page? {
      error := Some(if response.Failed? then RequestFailed else MalformedPage);
      return;
    }
    error := ValidatePage(total, response.total, |devices|, |response.rows|);
    if error.Some? {
      return;
    }
    if total < 0 {
      agreed := response.total;
    }
    error, taken, listed := TakeComputers(r, source, response.rows, ids, devices, RowsOf(server, n));
    OneDeviceEach(r, source, RowsOf(server, n + 1));
  }

  method ListComputers(r: Reader, server: nat -> Response<ComputerRecord>, source: string)
    returns (result: Result<seq<Device>, PageError>, requests: nat)
    ensures r.trim(source) == "" ==> result == Err(InvalidRequest) && requests == 0
    ensures r.trim(source) != "" ==> (result.Ok? <==> Listable(server, COMPUTER_ID))
    ensures r.trim(source) != "" && result.Err? ==>
              && requests > 0 && Partial(server, requests - 1, COMPUTER_ID)
              && Refuses(server, requests - 1, COMPUTER_ID, result.error)
    ensures result.Ok? ==> Complete(server, requests, COMPUTER_ID)
                           && result.value == ComputerDevices(r, source, RowsOf(server, requests))
    ensures Prompt(server, requests)
  {
    requests := 0;
    if r.trim(source) == "" {
      return Err(InvalidRequest), 0;
    }
    var devices: seq<Device>, ids: set<string> := [], {};
    var total := -1;
    while true
      invariant Partial(server, requests, COMPUTER_ID)
      invariant ComputersRead(r, source, server, requests, total, ids, devices)
      decreases if requests == 0 then 1 else 0, total - requests
    {
      ghost var page := requests;
      var error;
      error, total, ids, devices := ReadComputers(r, source, server, requests, total, ids, devices);
      requests := requests + 1;
      if error.Some? {
        RefusedMeansNone(server, page, COMPUTER_ID);
        return Err(error.value), requests;
      }
      AcceptedExtends(server, page, COMPUTER_ID);
      if |devices| == total {
        return Ok(devices), requests;
      }
    }
  }

  ghost predicate MobilesRead(r: Reader, source: string, server: nat -> Response<MobileRecord>, n: nat,
                              total: int, seen: nat, ids: set<string>, devices: seq<Device>) {
    && total == (if n > 0 && server(0).Page? then server(0).total else -1)
    && devices == MobileDevices(r, source, RowsOf(server, n)) && seen == |RowsOf(server, n)|
    && ids == Elements(IDs(RowsOf(server, n), MOBILE_ID))
  }

  /** As for computers, but rows that are skipped count towards the total all the same. */
  method ReadMobiles(r: Reader, source: string, server: nat -> Response<MobileRecord>, n: nat,
                     total: int, seen: nat, ids: set<string>, devices: seq<Device>)
    returns (error: Option<PageError>, agreed: int, counted: nat, taken: set<string>, listed: seq<Device>)
    requires Partial(server, n, MOBILE_ID) && MobilesRead(r, source, server, n, total, seen, ids, devices)
    ensures error.None? <==> Accepted(server, n, MOBILE_ID)
    ensures error.Some? ==> Refuses(server, n, MOBILE_ID, error.value)
    ensures error.None? ==> MobilesRead(r, source, server, n + 1, agreed, counted, taken, listed)
  {
    agreed, counted, taken, listed := total, seen, ids, devices;
    var response := server(n);
    if !response.Page? {
      error := Some(if response.Failed? then RequestFailed else MalformedPage);
      return;
    }
    error := ValidatePage(total, response.total, seen, |response.rows|);
    if error.Some? {
      return;
    }
    if total < 0 {
      agreed := response.total;
    }
    counted := seen + |response.rows|;
    error, taken, listed := TakeMobiles(r, source, response.rows, ids, devices, RowsOf(server, n));
  }

  method ListMobileDevices(r: Reader, server: nat -> Response<MobileRecord>, source: string)
    returns (result: Result<seq<Device>, PageError>, requests: nat)
    ensures r.trim(source) == "" ==> result == Err(InvalidRequest) && requests == 0
    ensures r.trim(source) != "" ==> (result.Ok? <==> Listable(server, MOBILE_ID))
    ensures r.trim(source) != "" && result.Err? ==>
              && requests > 0 && Partial(server, requests - 1, MOBILE_ID)
              && Refuses(server, requests - 1, MOBILE_ID, result.error)
    ensures result.Ok? ==> Complete(server, requests, MOBILE_ID)
                           && result.value == MobileDevices(r, source, RowsOf(server, requests))
    ensures Prompt(server, requests)
  {
    requests := 0;
    if r.trim(source) == "" {
      return Err(InvalidRequest), 0;
    }
    var devices: seq<Device>, ids: set<string>, seen: nat := [], {}, 0;
    var total := -1;
    while true
      invariant Partial(server, requests, MOBILE_ID)
      invariant MobilesRead(r, source, server, requests, total, seen, ids, devices)
      decreases if requests == 0 then 1 else 0, total - requests
    {
      ghost var page := requests;
      var error;
      error, total, seen, ids, devices := ReadMobiles(r, source, server, requests, total, seen, ids, devices);
      requests := requests + 1;
      if error.Some? {
        RefusedMeansNone(server, page, MOBILE_ID);
        return Err(error.value), requests;
      }
      AcceptedExtends(server, page, MOBILE_ID);
      if seen == total {
        return Ok(devices), requests;
      }
    }
  }

  function Rank(rows: seq<MobileRecord>, k: nat): nat
    requires k <= |rows|
  {
    if k == 0 then 0 else Rank(rows, k - 1) + if SpellsIos(rows[k - 1].deviceType) then 1 else 0
  }

  /**
   * The mobile listing is the order-preserving filter of the rows: each supported row stands where the
   * supported rows before it put it.
   */
  lemma {:induction false} MobileListing(r: Reader, source: string, rows: seq<MobileRecord>)
    ensures |MobileDevices(r, source, rows)| == Rank(rows, |rows|)
    ensures forall i: nat | i < |rows| && SpellsIos(rows[i].deviceType) ::
              Rank(rows, i) < |MobileDevices(r, source, rows)|
              && ReadsMobile(r, source, rows[i], MobileDevices(r, source, rows)[Rank(rows, i)])
  {
    if rows != [] {
      var front := rows[..|rows| - 1];
      MobileListing(r, source, front);
      MobileReads(r, source, rows[|rows| - 1]);
      FoldsExactly(rows[|rows| - 1].deviceType);
      forall k: nat | k < |rows| ensures Rank(rows, k) == Rank(front, k) {
        RankOfPrefix(rows, front, k);
      }
    }
  }

  lemma {:induction false} RankOfPrefix(rows: seq<MobileRecord>, front: seq<MobileRecord>, k: nat)
    requires front <= rows && k <= |front|
    ensures Rank(rows, k) == Rank(front, k)
  {
    if k > 0 {
      RankOfPrefix(rows, front, k - 1);
    }
  }
}
