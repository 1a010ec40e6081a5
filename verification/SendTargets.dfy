/** The SendTargets response (Appendix D of RFC 3720) as usr/discovery.c understands it:
    NUL-terminated lines, grouped into target records, each giving portals. */
module SendTargets {
  import opened CText

  const TARGET_NAME_MAXLEN := 255
  const NI_MAXHOST := 1025
  const LISTEN_PORT := 3260
  const TAG_UNKNOWN := -1

  // ---------- lines and records ----------

  function FirstNul(s: string): (n: nat)
    ensures n <= |s| && '\0' !in s[..n] && (n < |s| ==> s[n] == '\0')
  {
    if s == "" || s[0] == '\0' then 0
    else
      var n := FirstNul(s[1..]) + 1;
      assert s[..n] == [s[0]] + s[1..][..n - 1];
      n
  }

  /** The lines that are complete and not empty. */
  function Lines(s: string): seq<string> {
    var n := FirstNul(s);
    if n == |s| then []
    else (if n == 0 then [] else [s[..n]]) + Lines(s[n + 1..])
  }

  predicate IsName(line: string) { "TargetName=" <= line }

  predicate IsAddress(line: string) { "TargetAddress=" <= line }

  /** How many lines follow before the next target begins. */
  function BodyLength(lines: seq<string>): (n: nat)
    ensures n <= |lines|
    ensures forall i :: 0 <= i < n ==> !IsName(lines[i])
    ensures n < |lines| ==> IsName(lines[n])
  {
    if lines == [] || IsName(lines[0]) then 0 else 1 + BodyLength(lines[1..])
  }

  /** One record for each TargetName line and the lines up to the next one. */
  function RecordsOf(lines: seq<string>): seq<seq<string>> {
    if lines == [] then []
    else if !IsName(lines[0]) then RecordsOf(lines[1..])
    else
      var n := 1 + BodyLength(lines[1..]);
      [lines[..n]] + RecordsOf(lines[n..])
  }

  /** Where the last complete TargetName line begins. */
  function LastName(s: string): (r: Option<nat>)
    ensures r.Some? ==> r.value < |s|
  {
    var n := FirstNul(s);
    if n == |s| then None
    else
      match LastName(s[n + 1..])
      case Some(p) => Some(n + 1 + p)
      case None => if IsName(s[..n]) then Some(0) else None
  }

  // ---------- portals ----------

  /** strrchr: the position of the last `c`, or the length */
  function LastAt(s: string, c: char): (n: nat)
    ensures n <= |s| && (n < |s| ==> s[n] == c) && c !in s[(if n < |s| then n + 1 else 0)..]
    decreases |s|
  {
    if s == "" then 0
    else if s[|s| - 1] == c then |s| - 1
    else
      var t := s[..|s| - 1];
      var n := LastAt(t, c);
      if n < |t| then
        assert s[n + 1..] == t[n + 1..] + [s[|s| - 1]];
        n
      else
        assert s == t + [s[|s| - 1]];
        assert t[0..] == t && s[0..] == s;
        |s|
  }

  datatype Parts = Parts(host: string, port: Option<string>, tag: Option<string>)

  function After(s: string, n: nat): Option<string>
    requires n <= |s|
  {
    if n < |s| then Some(s[n + 1..]) else None
  }

  /** A TargetAddress value: the tag follows the last comma, the port the last colon before
      it, and a leading bracket is dropped with everything from the last closing one. */
  function ParseAddress(value: string): Parts {
    var comma := LastAt(value, ',');
    var rest := value[..comma];
    var colon := LastAt(rest, ':');
    Parts(Bare(rest[..colon]), After(rest, colon), After(value, comma))
  }

  /** The characters that end the parts: the last comma, the last colon before it, and the
      last closing bracket of a bracketed host. */
  predicate IsSeparator(value: string, k: nat) {
    var comma := LastAt(value, ',');
    var colon := LastAt(value[..comma], ':');
    || k == comma || k == colon
    || (colon > 0 && value[0] == '[' && k == 1 + LastAt(value[1..colon], ']'))
  }

  function Bare(host: string): string {
    if host != "" && host[0] == '[' then (var t := host[1..]; t[..LastAt(t, ']')]) else host
  }

  /** atoi, for numbers that an int can hold */
  function Atoi(s: string): int {
    var t := SkipSpaces(s);
    var u := if t != "" && (t[0] == '-' || t[0] == '+') then t[1..] else t;
    var n: int := DigitsValue(u[..CountDigits(u, 10)], 10);
    if t != "" && t[0] == '-' then -n else n
  }

  datatype Portal = Portal(name: string, address: string, port: int, tpgt: int)

  /** The discovery record's own address, and which addresses resolve. */
  datatype Env = Env(address: string, port: int, resolves: (string, Option<string>) -> bool)

  /** add_portal */
  function MakePortal(name: string, p: Parts): Portal {
    Portal(Fit(name, TARGET_NAME_MAXLEN), Fit(p.host, NI_MAXHOST),
           if p.port.Some? && p.port.value != "" then Atoi(p.port.value) else LISTEN_PORT,
           if p.tag.Some? && p.tag.value != "" then Atoi(p.tag.value) else TAG_UNKNOWN)
  }

  datatype Added = Added(portals: seq<Portal>, ok: bool)

  /** One line of a record: a TargetAddress gives a portal, others are passed over. */
  function AddLine(env: Env, name: string, line: string): Added {
    if !IsAddress(line) then Added([], true)
    else
      var p := ParseAddress(line[14..]);
      if env.resolves(p.host, p.port) then Added([MakePortal(name, p)], true) else Added([], false)
  }

  /** The lines of one record, up to the first whose address does not resolve. */
  function AddAddresses(env: Env, name: string, lines: seq<string>): Added {
    if lines == [] then Added([], true)
    else
      var a := AddLine(env, name, lines[0]);
      if !a.ok then a
      else
        var rest := AddAddresses(env, name, lines[1..]);
        Added(a.portals + rest.portals, rest.ok)
  }

  /** add_target_record: without any further line, the target is at the default address */
  function AddTarget(env: Env, name: string, lines: seq<string>): Added {
    if |name| > TARGET_NAME_MAXLEN then Added([], false)
    else if lines == [] then
      var p := Parts(env.address, Some(SignedDecimal(env.port)), None);
      if env.address == "" || !env.resolves(p.host, p.port) then Added([], false)
      else Added([MakePortal(name, p)], true)
    else AddAddresses(env, name, lines)
  }

  function AddRecord(env: Env, record: seq<string>): Added
    requires record != [] && IsName(record[0])
  {
    AddTarget(env, record[0][11..], record[1..])
  }

  predicate AreRecords(records: seq<seq<string>>) {
    forall i :: 0 <= i < |records| ==> records[i] != [] && IsName(records[i][0])
  }

  /** Records are added in order until one fails. */
  function AddRecords(env: Env, records: seq<seq<string>>): Added
    requires AreRecords(records)
  {
    if records == [] then Added([], true)
    else
      var a := AddRecord(env, records[0]);
      if !a.ok then a
      else
        var rest := AddRecords(env, records[1..]);
        Added(a.portals + rest.portals, rest.ok)
  }

  lemma {:induction false} RecordsAre(lines: seq<string>)
    ensures AreRecords(RecordsOf(lines))
    decreases |lines|
  {
    if lines != [] {
      if !IsName(lines[0]) {
        RecordsAre(lines[1..]);
      } else {
        RecordsAre(lines[1 + BodyLength(lines[1..])..]);
      }
    }
  }

  function AddLines(env: Env, lines: seq<string>): Added {
    RecordsAre(lines);
    AddRecords(env, RecordsOf(lines))
  }

  // ---------- responses in pieces ----------

  datatype Outcome = Outcome(portals: seq<Portal>, rest: string)

  /** process_sendtargets_response: a response that is not final may go on, so its last
      record stays in the buffer.  After a failure the buffer is dropped. */
  function Process(env: Env, data: string, final: bool): Outcome {
    match LastName(data)
    case None => Outcome([], data)
    case Some(p) =>
      var a := AddLines(env, Lines(if final then data else data[..p]));
      Outcome(a.portals, if a.ok && !final then data[p..] else "")
  }

  /** process_recvd_pdu over the PDUs of a response; only the last is final */
  function Feed(env: Env, data: string, pdus: seq<string>): seq<Portal>
    requires pdus != []
    decreases |pdus|
  {
    var d := data + pdus[0];
    if |pdus| == 1 then Process(env, d, true).portals
    else
      var r := Process(env, d, false);
      r.portals + Feed(env, r.rest, pdus[1..])
  }

  function Concat(pdus: seq<string>): string {
    if pdus == [] then "" else pdus[0] + Concat(pdus[1..])
  }

  // ---------- chunk independence ----------

  /** Nothing of the next line has been seen yet. */
  predicate Boundary(s: string) { s == "" || s[|s| - 1] == '\0' }

  lemma {:induction false} FirstNulIs(s: string, n: nat)
    requires n < |s| && '\0' !in s[..n] && s[n] == '\0'
    ensures FirstNul(s) == n
  {
    if n > 0 {
      assert s[0] == s[..n][0];
      assert s[1..][..n - 1] == s[..n][1..];
      FirstNulIs(s[1..], n - 1);
    }
  }

  lemma BoundaryNul(s: string)
    requires Boundary(s) && s != ""
    ensures FirstNul(s) < |s| && Boundary(s[FirstNul(s) + 1..])
  {
    hide FirstNul;
    assert s[|s| - 1] in s && s[..|s|] == s;
  }

  lemma LinesUnfold(s: string, n: nat)
    requires n < |s| && '\0' !in s[..n] && s[n] == '\0'
    ensures FirstNul(s) == n
    ensures Lines(s) == (if n == 0 then [] else [s[..n]]) + Lines(s[n + 1..])
  {
    hide FirstNul;
    FirstNulIs(s, n);
  }

  lemma {:induction false} LinesAppend(s: string, x: string)
    requires Boundary(s)
    ensures Lines(s + x) == Lines(s) + Lines(x)
    decreases |s|
  {
    hide FirstNul, Lines;
    if s == "" {
      assert s + x == x;
      NoLines();
    } else {
      var n := FirstNul(s);
      BoundaryNul(s);
      LinesUnfold(s, n);
      assert (s + x)[..n] == s[..n];
      LinesUnfold(s + x, n);
      LinesAppend(s[n + 1..], x);
      assert (s + x)[n + 1..] == s[n + 1..] + x;
    }
  }

  lemma NoLines()
    ensures Lines("") == []
  {
  }

  // ---------- records of lines ----------

  lemma {:induction false} BodyAppend(a: seq<string>, b: seq<string>)
    requires b != [] && IsName(b[0])
    ensures BodyLength(a + b) == BodyLength(a)
  {
    hide IsName;
    if a == [] {
      assert a + b == b;
    } else if !IsName(a[0]) {
      BodyAppend(a[1..], b);
      assert (a + b)[1..] == a[1..] + b;
    }
  }

  lemma RecordsSkip(lines: seq<string>)
    requires lines != [] && !IsName(lines[0])
    ensures RecordsOf(lines) == RecordsOf(lines[1..])
  {
  }

  lemma RecordsTake(lines: seq<string>, n: nat)
    requires lines != [] && IsName(lines[0]) && n == 1 + BodyLength(lines[1..])
    ensures RecordsOf(lines) == [lines[..n]] + RecordsOf(lines[n..])
  {
  }

  /** A TargetName line begins a new record, whatever came before. */
  lemma {:induction false} RecordsAppend(a: seq<string>, b: seq<string>)
    requires b != [] && IsName(b[0])
    ensures RecordsOf(a + b) == RecordsOf(a) + RecordsOf(b)
    decreases |a|
  {
    hide IsName, BodyLength, RecordsOf;
    if a == [] {
      assert a + b == b;
      NoRecords([]);
    } else {
      assert (a + b)[1..] == a[1..] + b && (a + b)[0] == a[0];
      if !IsName(a[0]) {
        RecordsAppend(a[1..], b);
        RecordsSkip(a);
        RecordsSkip(a + b);
      } else {
        var n := 1 + BodyLength(a[1..]);
        BodyAppend(a[1..], b);
        RecordsTake(a, n);
        RecordsTake(a + b, n);
        assert (a + b)[..n] == a[..n];
        assert (a + b)[n..] == a[n..] + b;
        RecordsAppend(a[n..], b);
      }
    }
  }

  predicate NoNames(lines: seq<string>) {
    forall i :: 0 <= i < |lines| ==> !IsName(lines[i])
  }

  lemma {:induction false} NoRecords(lines: seq<string>)
    requires NoNames(lines)
    ensures RecordsOf(lines) == []
  {
    if lines != [] {
      NoRecords(lines[1..]);
    }
  }

  /** The last TargetName line is at a line boundary, and begins the last record. */
  lemma {:induction false} LastNameIs(s: string)
    ensures LastName(s).None? ==> NoNames(Lines(s))
    ensures LastName(s).Some? ==>
              var p := LastName(s).value;
              && Boundary(s[..p])
              && FirstNul(s[p..]) < |s[p..]| && IsName(s[p..][..FirstNul(s[p..])])
    decreases |s|
  {
    hide FirstNul, IsName, Lines;
    var n := FirstNul(s);
    EmptyNoName();
    if n < |s| {
      var t := s[n + 1..];
      LastNameIs(t);
      LinesUnfold(s, n);
      match LastName(t)
      case Some(p) =>
        assert s[n + 1 + p..] == t[p..];
        BoundaryBehind(s, n, p);
      case None =>
        assert s[0..] == s;
        NoNamesBehind(if n == 0 then [] else [s[..n]], Lines(t));
    } else {
      NothingYet(s);
    }
  }

  lemma BoundaryBehind(s: string, n: nat, p: nat)
    requires n + 1 + p <= |s| && s[n] == '\0' && Boundary(s[n + 1..][..p])
    ensures Boundary(s[..n + 1 + p])
  {
    assert p > 0 ==> s[n + 1..][..p][p - 1] == s[n + p];
  }

  lemma NoNamesBehind(a: seq<string>, b: seq<string>)
    requires NoNames(b)
    ensures NoNames(a) ==> NoNames(a + b)
  {
  }

  lemma NothingYet(s: string)
    requires FirstNul(s) == |s|
    ensures Lines(s) == []
  {
  }

  lemma EmptyNoName()
    ensures !IsName("")
  {
  }

  /** More data after the last TargetName line changes no record before it. */
  lemma RecordsSplit(s: string, x: string)
    requires LastName(s).Some?
    ensures var p := LastName(s).value;
            RecordsOf(Lines(s + x)) == RecordsOf(Lines(s[..p])) + RecordsOf(Lines(s[p..] + x))
  {
    hide RecordsOf, FirstNul, IsName, Lines;
    LastNameIs(s);
    var p := LastName(s).value;
    var t := s[p..] + x;
    assert s + x == s[..p] + t;
    LinesAppend(s[..p], t);
    var n := FirstNul(s[p..]);
    assert t[..n] == s[p..][..n] && t[n] == s[p..][n];
    EmptyNoName();
    LinesUnfold(t, n);
    RecordsAppend(Lines(s[..p]), Lines(t));
  }

  lemma {:induction false} AddRecordsAppend(env: Env, a: seq<seq<string>>, b: seq<seq<string>>)
    requires AreRecords(a) && AreRecords(b)
    ensures AreRecords(a + b)
    ensures var l, r := AddRecords(env, a), AddRecords(env, b);
            AddRecords(env, a + b) == if l.ok then Added(l.portals + r.portals, r.ok) else l
  {
    hide AddRecord;
    if a == [] {
      assert a + b == b;
      assert [] + AddRecords(env, b).portals == AddRecords(env, b).portals;
    } else {
      assert (a + b)[1..] == a[1..] + b;
      AddRecordsAppend(env, a[1..], b);
    }
  }

  lemma AddSplit(env: Env, s: string, x: string)
    requires LastName(s).Some?
    ensures var p := LastName(s).value;
            var l, r := AddLines(env, Lines(s[..p])), AddLines(env, Lines(s[p..] + x));
            AddLines(env, Lines(s + x)) == if l.ok then Added(l.portals + r.portals, r.ok) else l
  {
    hide RecordsOf, Lines, LastName, AddRecords, AreRecords;
    RecordsSplit(s, x);
    var p := LastName(s).value;
    RecordsAre(Lines(s[..p]));
    RecordsAre(Lines(s[p..] + x));
    AddRecordsAppend(env, RecordsOf(Lines(s[..p])), RecordsOf(Lines(s[p..] + x)));
  }

  /** The portals of the PDUs that come after one in which a record failed. */
  function AfterFailure(env: Env, data: string, pdus: seq<string>): seq<Portal>
    requires pdus != []
    decreases |pdus|
  {
    var d := data + pdus[0];
    if |pdus| == 1 then []
    else if LastName(d).Some? && !AddLines(env, Lines(d[..LastName(d).value])).ok then Feed(env, "", pdus[1..])
    else AfterFailure(env, Process(env, d, false).rest, pdus[1..])
  }

  lemma FinalPortals(env: Env, d: string)
    ensures Process(env, d, true).portals == AddLines(env, Lines(d)).portals
    ensures LastName(d).None? ==> AddLines(env, Lines(d)) == Added([], true)
  {
    hide LastName, Lines, RecordsOf;
    LastNameIs(d);
    if LastName(d).None? {
      NoRecords(Lines(d));
    }
  }

  /** However a response is split, its portals are those of the whole, followed by what is
      read after a failed record has made the parser drop its buffer. */
  lemma {:induction false} FeedIs(env: Env, data: string, pdus: seq<string>)
    requires pdus != []
    ensures Feed(env, data, pdus) == AddLines(env, Lines(data + Concat(pdus))).portals + AfterFailure(env, data, pdus)
    decreases |pdus|
  {
    hide LastName, Lines, AddLines;
    var d := data + pdus[0];
    if |pdus| == 1 {
      assert Concat(pdus) == pdus[0];
      FinalPortals(env, d);
    } else {
      var x := Concat(pdus[1..]);
      assert data + Concat(pdus) == d + x;
      FeedIs(env, Process(env, d, false).rest, pdus[1..]);
      if LastName(d).Some? {
        AddSplit(env, d, x);
      }
    }
  }

  /** Chunk independence: for every split of a response into PDUs, the records emitted are
      those of one final PDU with all the bytes, if every record can be added. */
  lemma ChunkIndependence(env: Env, pdus: seq<string>)
    requires pdus != [] && AddLines(env, Lines(Concat(pdus))).ok
    ensures Feed(env, "", pdus) == Process(env, Concat(pdus), true).portals
  {
    hide Feed, Process, AddLines, Lines, AfterFailure;
    assert "" + Concat(pdus) == Concat(pdus);
    FeedIs(env, "", pdus);
    NothingFails(env, "", pdus);
    FinalPortals(env, Concat(pdus));
  }

  lemma {:induction false} NothingFails(env: Env, data: string, pdus: seq<string>)
    requires pdus != [] && AddLines(env, Lines(data + Concat(pdus))).ok
    ensures AfterFailure(env, data, pdus) == []
    decreases |pdus|
  {
    hide LastName, Lines, AddLines, Feed;
    var d := data + pdus[0];
    if |pdus| > 1 {
      var x := Concat(pdus[1..]);
      assert data + Concat(pdus) == d + x;
      if LastName(d).Some? {
        AddSplit(env, d, x);
      }
      NothingFails(env, Process(env, d, false).rest, pdus[1..]);
    }
  }

  // ---------- responses with a record that cannot be added ----------

  /** Among the records of a text that are complete, all but its last, one cannot be added. */
  predicate FailsBy(env: Env, text: string) {
    LastName(text).Some? && !AddLines(env, Lines(text[..LastName(text).value])).ok
  }

  /** The first PDU, but for the last, with which the text received fails. */
  function FirstFailure(env: Env, text: string, pdus: seq<string>): (r: Option<nat>)
    requires pdus != []
    ensures r.Some? ==> r.value + 1 < |pdus|
    decreases |pdus|
  {
    if |pdus| == 1 then None
    else if FailsBy(env, text + pdus[0]) then Some(0)
    else match FirstFailure(env, text + pdus[0], pdus[1..]) case Some(k) => Some(k + 1) case None => None
  }

  /** The buffer `data` is what is left of `done + data` after its complete records were
      added. */
  ghost predicate Buffered(env: Env, done: string, data: string) {
    done == "" || (Boundary(done) && AddLines(env, Lines(done)).ok && Begins(data))
  }

  /** The first line is complete and a TargetName. */
  predicate Begins(data: string) {
    FirstNul(data) < |data| && IsName(data[..FirstNul(data)])
  }

  lemma BeginsMore(data: string, x: string)
    requires Begins(data)
    ensures Begins(data + x)
  {
    hide FirstNul, IsName;
    var n := FirstNul(data);
    assert (data + x)[..n] == data[..n];
    FirstNulIs(data + x, n);
  }

  lemma BeginsLast(data: string)
    requires Begins(data)
    ensures LastName(data).Some?
  {
    hide FirstNul, IsName;
  }

  lemma LastNameUnfold(s: string, n: nat)
    requires n < |s| && '\0' !in s[..n] && s[n] == '\0' && LastName(s[n + 1..]).Some?
    ensures LastName(s) == Some(n + 1 + LastName(s[n + 1..]).value)
  {
    hide FirstNul, IsName;
    FirstNulIs(s, n);
  }

  lemma {:induction false} LastNameShift(s: string, b: nat)
    requires b <= |s| && Boundary(s[..b]) && LastName(s[b..]).Some?
    ensures LastName(s) == Some(b + LastName(s[b..]).value)
    decreases b
  {
    hide FirstNul, LastName;
    if b == 0 {
      assert s[0..] == s;
    } else {
      BoundaryNul(s[..b]);
      var n := FirstNul(s[..b]);
      assert s[..b][..n] == s[..n];
      var t := s[n + 1..];
      assert t[b - n - 1..] == s[b..];
      assert s[..b][n + 1..] == t[..b - n - 1];
      LastNameShift(t, b - n - 1);
      LastNameUnfold(s, n);
    }
  }

  lemma LastNameBehind(s: string, d: string)
    requires Boundary(s) && LastName(d).Some?
    ensures LastName(s + d) == Some(|s| + LastName(d).value)
  {
    hide LastName;
    assert (s + d)[..|s|] == s && (s + d)[|s|..] == d;
    LastNameShift(s + d, |s|);
  }

  lemma BeginsLines(t: string, data: string)
    requires Begins(data) && Boundary(t) && t <= data && t != ""
    ensures Lines(t) != [] && IsName(Lines(t)[0])
  {
    hide FirstNul, IsName, Lines;
    BoundaryNul(t);
    var n := FirstNul(t);
    assert data[..n] == t[..n];
    FirstNulIs(data, n);
    EmptyNoName();
    LinesUnfold(t, n);
  }

  /** Text before the buffer whose records were added does not matter for the next failure. */
  lemma FailsBehind(env: Env, done: string, d: string)
    requires Buffered(env, done, d)
    ensures FailsBy(env, done + d) == FailsBy(env, d)
  {
    hide FirstNul, IsName, Lines, LastName, AddLines, Begins;
    if done == "" {
      assert done + d == d;
    } else {
      BeginsLast(d);
      LastNameBehind(done, d);
      LastNameIs(d);
      var p := LastName(d).value;
      assert (done + d)[..|done| + p] == done + d[..p];
      LinesAppend(done, d[..p]);
      if p == 0 {
        assert done + d[..p] == done;
        NothingOk(env, d[..p]);
      } else {
        BeginsLines(d[..p], d);
        AddAppend(env, Lines(done), Lines(d[..p]));
      }
    }
  }

  lemma NothingOk(env: Env, t: string)
    requires t == ""
    ensures AddLines(env, Lines(t)).ok
  {
    NoLines();
  }

  lemma AddAppend(env: Env, a: seq<string>, b: seq<string>)
    requires b != [] && IsName(b[0])
    ensures var l, r := AddLines(env, a), AddLines(env, b);
            AddLines(env, a + b) == if l.ok then Added(l.portals + r.portals, r.ok) else l
  {
    hide RecordsOf, AddRecords, IsName;
    RecordsAppend(a, b);
    RecordsAre(a);
    RecordsAre(b);
    AddRecordsAppend(env, RecordsOf(a), RecordsOf(b));
  }

  /** A PDU that is not the last, and does not fail, leaves its last record in the buffer. */
  lemma BufferedNext(env: Env, done: string, d: string) returns (done': string)
    requires Buffered(env, done, d) && !FailsBy(env, d)
    ensures var rest := Process(env, d, false).rest;
            Buffered(env, done', rest) && done + d == done' + rest
  {
    hide FirstNul, IsName, Lines, LastName, AddLines, Begins;
    if LastName(d).None? {
      done' := done;
    } else {
      LastNameIs(d);
      var p := LastName(d).value;
      done' := done + d[..p];
      assert d == d[..p] + d[p..];
      LastBegins(d, p);
      if p == 0 {
        assert done' == done && d[p..] == d;
      } else if done == "" {
        assert done' == d[..p];
      } else {
        LinesAppend(done, d[..p]);
        BeginsLines(d[..p], d);
        AddAppend(env, Lines(done), Lines(d[..p]));
      }
    }
  }

  lemma LastBegins(d: string, p: nat)
    requires LastName(d) == Some(p)
    ensures Begins(d[p..])
  {
    LastNameIs(d);
  }

  /** What follows a failure is read as a response of its own. */
  lemma {:induction false} AfterFailureIs(env: Env, done: string, data: string, pdus: seq<string>)
    requires pdus != [] && Buffered(env, done, data)
    ensures var k := FirstFailure(env, done + data, pdus);
            AfterFailure(env, data, pdus) == if k.Some? then Feed(env, "", pdus[k.value + 1..]) else []
    decreases |pdus|
  {
    hide LastName, Lines, AddLines, Feed, Begins;
    if |pdus| > 1 {
      var d := data + pdus[0];
      assert done + data + pdus[0] == done + d;
      BufferGrows(env, done, data, pdus[0]);
      FailsBehind(env, done, d);
      if !FailsBy(env, d) {
        var done' := BufferedNext(env, done, d);
        hide FailsBy, Buffered, Process;
        AfterFailureIs(env, done', Process(env, d, false).rest, pdus[1..]);
        AfterUnfold(env, data, pdus);
      }
    }
  }

  lemma AfterUnfold(env: Env, data: string, pdus: seq<string>)
    requires |pdus| > 1 && !FailsBy(env, data + pdus[0])
    ensures AfterFailure(env, data, pdus) == AfterFailure(env, Process(env, data + pdus[0], false).rest, pdus[1..])
  {
    hide LastName, Lines, AddLines, Feed, Process;
  }

  lemma BufferGrows(env: Env, done: string, data: string, x: string)
    requires Buffered(env, done, data)
    ensures Buffered(env, done, data + x)
  {
    hide AddLines, Lines, Begins;
    if done != "" {
      BeginsMore(data, x);
    }
  }

  /** The portals of a response that comes in these PDUs: those of its lines, and after a
      PDU with a failure those of the remaining PDUs as a response of their own. */
  function PortalsOf(env: Env, pdus: seq<string>): seq<Portal>
    requires pdus != []
    decreases |pdus|
  {
    var k := FirstFailure(env, "", pdus);
    AddLines(env, Lines(Concat(pdus))).portals + if k.Some? then PortalsOf(env, pdus[k.value + 1..]) else []
  }

  lemma {:induction false} FeedExact(env: Env, pdus: seq<string>)
    requires pdus != []
    ensures Feed(env, "", pdus) == PortalsOf(env, pdus)
    decreases |pdus|
  {
    hide Feed, AddLines, Lines, AfterFailure, FirstFailure;
    assert "" + Concat(pdus) == Concat(pdus) && "" + "" == "";
    FeedIs(env, "", pdus);
    AfterFailureIs(env, "", "", pdus);
    var k := FirstFailure(env, "", pdus);
    if k.Some? {
      FeedExact(env, pdus[k.value + 1..]);
    }
  }

  /** No response among those that begin after a failure has a portal to add. */
  predicate Silent(env: Env, pdus: seq<string>)
    requires pdus != []
    decreases |pdus|
  {
    var k := FirstFailure(env, "", pdus);
    k.Some? ==>
      var rest := pdus[k.value + 1..];
      AddLines(env, Lines(Concat(rest))).portals == [] && Silent(env, rest)
  }

  lemma {:induction false} SilentIs(env: Env, pdus: seq<string>)
    requires pdus != []
    ensures Silent(env, pdus) <==> PortalsOf(env, pdus) == AddLines(env, Lines(Concat(pdus))).portals
    decreases |pdus|
  {
    hide AddLines, Lines, FirstFailure;
    var a := AddLines(env, Lines(Concat(pdus))).portals;
    var k := FirstFailure(env, "", pdus);
    if k.Some? {
      var rest := pdus[k.value + 1..];
      SilentIs(env, rest);
      assert |PortalsOf(env, pdus)| == |a| + |PortalsOf(env, rest)|;
      assert |PortalsOf(env, rest)| >= |AddLines(env, Lines(Concat(rest))).portals|;
    }
  }

  /** Without the condition of chunk independence: the split of a response shows in its
      portals exactly if, after a PDU with which a complete record fails, the text of the
      remaining PDUs by itself has a portal to add. */
  lemma ChunkDependence(env: Env, pdus: seq<string>)
    requires pdus != []
    ensures Feed(env, "", pdus) == Process(env, Concat(pdus), true).portals <==> Silent(env, pdus)
  {
    hide Feed, Process, AddLines, Lines, PortalsOf, Silent;
    FeedExact(env, pdus);
    SilentIs(env, pdus);
    FinalPortals(env, Concat(pdus));
  }

  // ---------- a split that shows ----------

  /** A target without an address, where there is no default, and the beginning of another
      one in the first PDU, a third target in the second: its portal is read only because
      of the split. */
  lemma SplitShows(env: Env)
    requires env.address == "" && env.resolves("y", None)
    ensures var pdus := ["TargetName=a\0TargetName=b\0", "TargetName=c\0TargetAddress=y\0"];
            Feed(env, "", pdus) != Process(env, Concat(pdus), true).portals
  {
    hide Feed, Process, AddLines, Lines, LastName;
    var first, second := "TargetName=a\0TargetName=b\0", "TargetName=c\0TargetAddress=y\0";
    var pdus := [first, second];
    FirstFails(env);
    SecondAdds(env);
    assert "" + first == first;
    assert FirstFailure(env, "", pdus) == Some(0);
    assert pdus[1..] == [second] && Concat([second]) == second;
    ChunkDependence(env, pdus);
  }

  lemma FirstLine(t: string, rest: string)
    requires t != "" && '\0' !in t
    ensures Lines(t + "\0" + rest) == [t] + Lines(rest)
    ensures LastName(rest).Some? ==> LastName(t + "\0" + rest) == Some(|t| + 1 + LastName(rest).value)
    ensures LastName(rest).None? && IsName(t) ==> LastName(t + "\0" + rest) == Some(0)
  {
    hide FirstNul, Lines, IsName;
    var s := t + "\0" + rest;
    assert s[..|t|] == t && s[|t| + 1..] == rest;
    LinesUnfold(s, |t|);
  }

  lemma FirstFails(env: Env)
    requires env.address == ""
    ensures FailsBy(env, "TargetName=a\0TargetName=b\0")
  {
    hide Lines, AddLines, LastName;
    var text := "TargetName=a\0TargetName=b\0";
    TwoNames();
    assert text[..13] == "TargetName=a" + "\0" + "";
    FirstLine("TargetName=a", "");
    NoLines();
    assert ["TargetName=a"] + [] == ["TargetName=a"];
    OneName(env);
  }

  lemma TwoNames()
    ensures LastName("TargetName=a\0TargetName=b\0") == Some(13)
  {
    hide FirstNul, Lines, LastName;
    var text, t := "TargetName=a\0TargetName=b\0", "TargetName=b" + "\0" + "";
    assert text == "TargetName=a" + "\0" + t;
    NoName();
    FirstLine("TargetName=b", "");
    FirstLine("TargetName=a", t);
  }

  lemma NoName()
    ensures LastName("") == None
  {
  }

  lemma OneName(env: Env)
    requires env.address == ""
    ensures !AddLines(env, ["TargetName=a"]).ok
  {
    var lines := ["TargetName=a"];
    assert lines[1..] == [] && BodyLength(lines[1..]) == 0;
    assert RecordsOf(lines) == [lines[..1]] + RecordsOf(lines[1..]);
    assert lines[..1] == lines;
  }

  lemma SecondAdds(env: Env)
    requires env.resolves("y", None)
    ensures AddLines(env, Lines("TargetName=c\0TargetAddress=y\0")).portals != []
  {
    hide Lines, AddLines, LastName;
    var text, t := "TargetName=c\0TargetAddress=y\0", "TargetAddress=y" + "\0" + "";
    assert text == "TargetName=c" + "\0" + t;
    FirstLine("TargetAddress=y", "");
    FirstLine("TargetName=c", t);
    NoLines();
    assert Lines(text) == ["TargetName=c", "TargetAddress=y"];
    OneAddress(env);
  }

  lemma OneAddress(env: Env)
    requires env.resolves("y", None)
    ensures AddLines(env, ["TargetName=c", "TargetAddress=y"]).portals != []
  {
    hide ParseAddress, AddAddresses;
    var lines := ["TargetName=c", "TargetAddress=y"];
    assert lines[1..] == ["TargetAddress=y"] && lines[2..] == [];
    assert !IsName("TargetAddress=y") by { assert "TargetAddress=y"[6] == 'A'; }
    assert BodyLength(["TargetAddress=y"]) == 1;
    assert RecordsOf(lines) == [lines[..2]] + RecordsOf(lines[2..]);
    assert lines[..2] == lines;
    PlainHost();
    OneLine(env, "c");
    assert "TargetName=c"[11..] == "c";
  }

  lemma OneLine(env: Env, name: string)
    requires env.resolves("y", None)
    ensures AddAddresses(env, name, ["TargetAddress=y"]).portals != [] && AddAddresses(env, name, ["TargetAddress=y"]).ok
  {
    hide ParseAddress;
    PlainHost();
    assert "TargetAddress=y"[14..] == "y";
    assert ["TargetAddress=y"][1..] == [];
  }

  lemma PlainHost()
    ensures ParseAddress("y") == Parts("y", None, None)
  {
    assert LastAt("y", ',') == 1 && LastAt("y", ':') == 1;
  }
}
