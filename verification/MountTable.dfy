/**
 The parser for `/etc/fstab` and `/etc/mtab`: lines that start with "/dev/sd" are split at single spaces, the
 first line for a device wins, and a line with fewer than three parts ends the parse.
 */
module MountTable {
  import opened LumiaTypes
  import opened Text

  const DISK := "/dev/sd"

  datatype MountInfo = MountInfo(device: string, mountPoint: string, fsType: string)

  /** `line.find("/dev/sd", 0) == 0` */
  predicate IsDisk(line: string) {
    DISK <= line
  }

  function Parts(line: string): (parts: seq<string>)
    ensures |parts| > 0
  {
    Split(line, ' ')
  }

  predicate Malformed(line: string) {
    IsDisk(line) && |Parts(line)| < 3
  }

  /** The first non-empty part from `j` on, or the end. */
  function FirstFull(parts: seq<string>, j: nat): (k: nat)
    requires j <= |parts|
    ensures j <= k <= |parts| && (forall i | j <= i < k :: parts[i] == "") && (k < |parts| ==> parts[k] != "")
    decreases |parts| - j
  {
    if j < |parts| && parts[j] == "" then FirstFull(parts, j + 1) else j
  }

  /** The mount point is the first non-empty part after the device, the type is the part right after it. */
  function InfoFrom(parts: seq<string>): MountInfo
    requires |parts| > 0
  {
    var k := FirstFull(parts, 1);
    MountInfo(parts[0],
              if k < |parts| then parts[k] else "",
              if k + 1 < |parts| then parts[k + 1] else "")
  }

  function InfoOf(line: string): MountInfo {
    InfoFrom(Parts(line))
  }

  /** How many lines are read: those before the first malformed one. */
  function ReadUpTo(lines: seq<string>): (n: nat)
    ensures n <= |lines| && (forall i | 0 <= i < n :: !Malformed(lines[i])) && (n < |lines| ==> Malformed(lines[n]))
  {
    if lines == [] || Malformed(lines[0]) then 0 else 1 + ReadUpTo(lines[1..])
  }

  /** A line is malformed exactly when it starts with "/dev/sd" and has fewer than two spaces. */
  lemma MalformedIff(line: string)
    ensures Malformed(line) <==> "/dev/sd" <= line && Count(line, ' ') < 2
  {
    SplitCount(line, ' ');
  }

  /** All parts between the first and the one at `k` are empty, the one at `k` is the mount point, the next the type. */
  predicate ReadsAt(parts: seq<string>, info: MountInfo, k: int) {
    && 1 <= k <= |parts| && (forall i | 1 <= i < k :: parts[i] == "")
    && (if k < |parts| then parts[k] != "" && info.mountPoint == parts[k] else info.mountPoint == "")
    && (if k + 1 < |parts| then info.fsType == parts[k + 1] else info.fsType == "")
  }

  /**
   What is read from any line: the device is what comes before the first space; the mount point is the first part after
   it that is not empty and the type the part after that, each empty if there is none.
   */
  lemma InfoExact(line: string)
    ensures ' ' !in InfoOf(line).device && (InfoOf(line).device == line || InfoOf(line).device + " " <= line)
    ensures exists k :: ReadsAt(Split(line, ' '), InfoOf(line), k)
  {
    JoinSplit(line, ' ');
    var parts := Split(line, ' ');
    if |parts| > 1 {
      assert line == parts[0] + [' '] + Join(parts[1..], ' ');
      assert parts[0] + " " <= line;
    }
    assert ReadsAt(parts, InfoOf(line), FirstFull(parts, 1));
  }

  predicate Names(line: string, device: string) {
    IsDisk(line) && Parts(line)[0] == device
  }

  ghost predicate FirstLine(lines: seq<string>, i: int, device: string) {
    0 <= i < |lines| && Names(lines[i], device) && forall j | 0 <= j < i :: !Names(lines[j], device)
  }

  /** The table holds what the first line that names a device says of it, for every device named, and no more. */
  ghost predicate Tabulates(lines: seq<string>, table: map<string, MountInfo>) {
    && (forall i | 0 <= i < |lines| && IsDisk(lines[i]) :: Parts(lines[i])[0] in table)
    && (forall d | d in table :: exists i :: FirstLine(lines, i, d) && table[d] == InfoOf(lines[i]))
  }

  lemma TabulatesUnique(lines: seq<string>, a: map<string, MountInfo>, b: map<string, MountInfo>)
    requires Tabulates(lines, a) && Tabulates(lines, b)
    ensures a == b
  {
    forall d | d in a ensures d in b && a[d] == b[d] {
      var i :| FirstLine(lines, i, d) && a[d] == InfoOf(lines[i]);
    }
    forall d | d in b ensures d in a {
      var i :| FirstLine(lines, i, d) && b[d] == InfoOf(lines[i]);
    }
  }

  /** A further line adds its device unless the table has it. */
  function Added(table: map<string, MountInfo>, line: string): map<string, MountInfo> {
    if IsDisk(line) && Parts(line)[0] !in table then table[Parts(line)[0] := InfoOf(line)] else table
  }

  lemma TabulatesNext(lines: seq<string>, line: string, table: map<string, MountInfo>)
    requires Tabulates(lines, table)
    ensures Tabulates(lines + [line], Added(table, line))
  {
    hide InfoFrom, Split;
    var next := Added(table, line);
    var all := lines + [line];
    forall d | d in next ensures exists i :: FirstLine(all, i, d) && next[d] == InfoOf(all[i]) {
      if d in table {
        var i :| FirstLine(lines, i, d) && table[d] == InfoOf(lines[i]);
        assert FirstLine(all, i, d);
      } else {
        assert FirstLine(all, |lines|, d);
      }
    }
  }

  function Filled(lines: seq<string>): (table: map<string, MountInfo>)
    ensures Tabulates(lines, table)
  {
    if lines == [] then map[]
    else
      var n := |lines| - 1;
      assert lines == lines[..n] + [lines[n]];
      TabulatesNext(lines[..n], lines[n], Filled(lines[..n]));
      Added(Filled(lines[..n]), lines[n])
  }

  /** What a file says: the table of the lines before its first malformed one. */
  function TableOf(content: string): map<string, MountInfo> {
    var lines := Split(content, '\n');
    Filled(lines[..ReadUpTo(lines)])
  }

  lemma DeviceIsKey(lines: seq<string>, table: map<string, MountInfo>, device: string)
    requires Tabulates(lines, table) && device in table
    ensures table[device].device == device
  {
    var i :| FirstLine(lines, i, device) && table[device] == InfoOf(lines[i]);
  }

  /** The inner loop of the parser. */
  method ParseLine(parts: seq<string>) returns (info: MountInfo)
    requires |parts| >= 3
    ensures info == InfoFrom(parts)
  {
    info := MountInfo(parts[0], "", "");
    for j := 1 to |parts|
      invariant info == MountInfo(parts[0], "", "")
      invariant FirstFull(parts, 1) == FirstFull(parts, j)
    {
      if parts[j] == "" {
        continue;
      }
      info := info.(mountPoint := parts[j]);
      if j + 1 < |parts| {
        info := info.(fsType := parts[j + 1]);
      }
      break;
    }
  }

  /** The result says whether all lines were read; the table holds what was read either way. */
  method ParseTab(content: string) returns (ok: bool, container: map<string, MountInfo>)
    ensures var lines := Split(content, '\n');
            && (ok <==> ReadUpTo(lines) == |lines|)
            && Tabulates(lines[..ReadUpTo(lines)], container)
    ensures container == TableOf(content)
  {
    hide Tabulates;
    var lines := Split(content, '\n');
    container := map[];
    for i := 0 to |lines|
      invariant i <= ReadUpTo(lines)
      invariant container == Filled(lines[..i])
    {
      assert lines[..i + 1][..i] == lines[..i];
      if !IsDisk(lines[i]) {
        continue;
      }
      var parts := Split(lines[i], ' ');
      if |parts| < 3 {
        return false, container;
      }
      var info := ParseLine(parts);
      if info.device !in container {
        container := container[info.device := info];
      }
    }
    assert lines[..|lines|] == lines;
    ok := true;
  }

  // ---------------------------------------------------------------- round trip

  /** A line of a table: an entry as it is written, or a line the parser skips. */
  datatype Row =
    | Mount(device: string, gap: nat, mountPoint: string, fsType: string, rest: Option<string>)
    | Noise(text: string)

  predicate Word(s: string) {
    s != "" && ' ' !in s && '\n' !in s
  }

  predicate WellFormed(r: Row) {
    match r
    case Mount(device, _, mountPoint, fsType, rest) =>
      DISK <= device && Word(device) && Word(mountPoint) && Word(fsType) && (rest.Some? ==> '\n' !in rest.value)
    case Noise(text) => !IsDisk(text) && '\n' !in text
  }

  function Spaces(n: nat): (s: string)
    ensures |s| == n && forall i | 0 <= i < n :: s[i] == ' '
  {
    seq(n, _ => ' ')
  }

  /** Any positive number of spaces after the device, one space between the other fields. */
  function Render(r: Row): string {
    match r
    case Mount(device, gap, mountPoint, fsType, rest) =>
      device + [' '] + (Spaces(gap) + (mountPoint + [' '] + (if rest.Some? then fsType + [' '] + rest.value else fsType)))
    case Noise(text) => text
  }

  function RenderAll(rows: seq<Row>): seq<string> {
    seq(|rows|, i requires 0 <= i < |rows| => Render(rows[i]))
  }

  lemma {:induction false} SplitSpaces(n: nat, s: string)
    ensures Split(Spaces(n) + s, ' ') == seq(n, _ => "") + Split(s, ' ')
  {
    if n == 0 {
      assert Spaces(0) + s == s;
    } else {
      SplitSpaces(n - 1, s);
      assert (Spaces(n) + s)[1..] == Spaces(n - 1) + s;
      assert [""] + (seq(n - 1, _ => "") + Split(s, ' ')) == seq(n, _ => "") + Split(s, ' ');
    }
  }

  lemma PartsOfMount(r: Row)
    requires r.Mount? && WellFormed(r)
    ensures var parts := Parts(Render(r));
            && |parts| >= r.gap + 3 && parts[0] == r.device
            && (forall i | 1 <= i <= r.gap :: parts[i] == "")
            && parts[r.gap + 1] == r.mountPoint && parts[r.gap + 2] == r.fsType
  {
    var last := if r.rest.Some? then r.fsType + [' '] + r.rest.value else r.fsType;
    var more := r.mountPoint + [' '] + last;
    SplitFirst(r.device, ' ', Spaces(r.gap) + more);
    SplitSpaces(r.gap, more);
    SplitFirst(r.mountPoint, ' ', last);
    if r.rest.Some? {
      SplitFirst(r.fsType, ' ', r.rest.value);
    } else {
      SplitNone(r.fsType, ' ');
    }
    assert Split(last, ' ')[0] == r.fsType;
    assert Parts(Render(r)) == [r.device] + (seq(r.gap, _ => "") + ([r.mountPoint] + Split(last, ' ')));
  }

  lemma FirstFullIs(parts: seq<string>, k: nat)
    requires 1 <= k < |parts| && (forall i | 1 <= i < k :: parts[i] == "") && parts[k] != ""
    ensures FirstFull(parts, 1) == k
  {
  }

  /** What is read from a written entry is the entry. */
  lemma MountReadBack(r: Row)
    requires r.Mount? && WellFormed(r)
    ensures IsDisk(Render(r)) && !Malformed(Render(r))
    ensures Parts(Render(r))[0] == r.device
    ensures InfoOf(Render(r)) == MountInfo(r.device, r.mountPoint, r.fsType)
  {
    PartsOfMount(r);
    assert r.device <= Render(r);
    FirstFullIs(Parts(Render(r)), r.gap + 1);
  }

  lemma NoNewline(r: Row)
    requires WellFormed(r)
    ensures '\n' !in Render(r)
  {
  }

  ghost predicate FirstRow(rows: seq<Row>, i: int, d: string) {
    && 0 <= i < |rows| && rows[i].Mount? && rows[i].device == d
    && forall j | 0 <= j < i && rows[j].Mount? :: rows[j].device != d
  }

  function InfoOfRow(r: Row): MountInfo
    requires r.Mount?
  {
    MountInfo(r.device, r.mountPoint, r.fsType)
  }

  /** The table a list of rows stands for: for each device the first row that names it. */
  ghost predicate Holds(rows: seq<Row>, table: map<string, MountInfo>) {
    && (forall i | 0 <= i < |rows| && rows[i].Mount? :: rows[i].device in table)
    && (forall d | d in table :: exists i :: FirstRow(rows, i, d) && table[d] == InfoOfRow(rows[i]))
  }

  ghost predicate Matches(r: Row, line: string) {
    && (IsDisk(line) <==> r.Mount?)
    && (r.Mount? ==> Parts(line)[0] == r.device && InfoOf(line) == InfoOfRow(r))
  }

  lemma TabulatedHolds(rows: seq<Row>, lines: seq<string>, table: map<string, MountInfo>)
    requires |rows| == |lines| && (forall i | 0 <= i < |rows| :: Matches(rows[i], lines[i]))
    requires Tabulates(lines, table)
    ensures Holds(rows, table)
  {
    forall i | 0 <= i < |rows| && rows[i].Mount? ensures rows[i].device in table {
      assert Matches(rows[i], lines[i]);
    }
    forall d | d in table ensures exists i :: FirstRow(rows, i, d) && table[d] == InfoOfRow(rows[i]) {
      var i :| FirstLine(lines, i, d) && table[d] == InfoOf(lines[i]);
      assert Matches(rows[i], lines[i]);
      forall j | 0 <= j < i && rows[j].Mount? ensures rows[j].device != d {
        assert Matches(rows[j], lines[j]) && !Names(lines[j], d);
      }
      assert FirstRow(rows, i, d);
    }
  }

  lemma HoldsTabulated(rows: seq<Row>, lines: seq<string>, table: map<string, MountInfo>)
    requires |rows| == |lines| && (forall i | 0 <= i < |rows| :: Matches(rows[i], lines[i]))
    requires Holds(rows, table)
    ensures Tabulates(lines, table)
  {
    forall i | 0 <= i < |lines| && IsDisk(lines[i]) ensures Parts(lines[i])[0] in table {
      assert Matches(rows[i], lines[i]);
    }
    forall d | d in table ensures exists i :: FirstLine(lines, i, d) && table[d] == InfoOf(lines[i]) {
      var i :| FirstRow(rows, i, d) && table[d] == InfoOfRow(rows[i]);
      assert Matches(rows[i], lines[i]);
      forall j | 0 <= j < i ensures !Names(lines[j], d) {
        assert Matches(rows[j], lines[j]);
      }
      assert FirstLine(lines, i, d);
    }
  }

  /**
   Round trip: whatever is written as rows is read back exactly. All lines are read, the table that is read is the
   one the rows stand for, and no other fits them; rows of noise change nothing, and of two rows for one device
   the first wins.
   */
  lemma RoundTrip(rows: seq<Row>, table: map<string, MountInfo>)
    requires rows != [] && forall i | 0 <= i < |rows| :: WellFormed(rows[i])
    ensures var lines := Split(Join(RenderAll(rows), '\n'), '\n');
            ReadUpTo(lines) == |lines| && (Tabulates(lines, table) <==> Holds(rows, table))
    ensures Holds(rows, TableOf(Join(RenderAll(rows), '\n')))
  {
    var lines := RenderAll(rows);
    forall i | 0 <= i < |rows| ensures '\n' !in lines[i] && !Malformed(lines[i]) && Matches(rows[i], lines[i]) {
      NoNewline(rows[i]);
      if rows[i].Mount? {
        MountReadBack(rows[i]);
      }
    }
    SplitJoin(lines, '\n');
    assert lines[..|lines|] == lines;
    TabulatedHolds(rows, lines, TableOf(Join(lines, '\n')));
    if Tabulates(lines, table) {
      TabulatedHolds(rows, lines, table);
    }
    if Holds(rows, table) {
      HoldsTabulated(rows, lines, table);
    }
  }
}
