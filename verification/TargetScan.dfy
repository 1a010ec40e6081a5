/** The scan of process_sendtargets_response: how far it has got, and what it has added. */
module TargetScan {
  import opened CText
  import opened SendTargets
  import opened TargetText

  // ---------- more about lines ----------

  lemma {:induction false} NulsAdd(d: string, lo: nat, b: nat, t: nat)
    requires lo <= b <= t <= |d| && Boundary(d[lo..b]) && forall i :: b <= i < t ==> d[i] == '\0'
    ensures Lines(d[lo..t]) == Lines(d[lo..b]) && Boundary(d[lo..t])
    decreases t - b
  {
    hide Lines;
    if b < t {
      assert d[lo..b + 1] == d[lo..b] + "\0";
      LinesAppend(d[lo..b], "\0");
      NulLine();
      NulsAdd(d, lo, b + 1, t);
    }
  }

  lemma LineAdds(d: string, lo: nat, b: nat, e: nat)
    requires lo <= b < e < |d| && Boundary(d[lo..b]) && '\0' !in d[b..e] && d[e] == '\0'
    ensures Lines(d[lo..e + 1]) == Lines(d[lo..b]) + [d[b..e]] && Boundary(d[lo..e + 1])
  {
    hide Lines;
    var x := d[b..e] + "\0";
    assert d[e..e + 1] == "\0" && d[b..e + 1] == d[b..e] + d[e..e + 1];
    assert d[lo..e + 1] == d[lo..b] + d[b..e + 1];
    LinesAppend(d[lo..b], x);
    OneLine(d[b..e]);
  }

  lemma OneLine(s: string)
    requires s != "" && '\0' !in s
    ensures Lines(s + "\0") == [s]
  {
    hide Lines;
    var x := s + "\0";
    assert x[..|s|] == s;
    LinesUnfold(x, |s|);
    assert x[|s| + 1..] == "";
    NoLines();
  }

  lemma NoNulNoLines(s: string)
    requires '\0' !in s
    ensures Lines(s) == [] && LastName(s) == None
  {
  }

  lemma {:induction false} NoNamesNone(s: string)
    requires NoNames(Lines(s))
    ensures LastName(s) == None
    decreases |s|
  {
    hide FirstNul, IsName;
    EmptyNoName();
    var n := FirstNul(s);
    if n < |s| {
      assert if n == 0 then s[..n] == "" else Lines(s)[0] == s[..n];
      var more := Lines(s[n + 1..]);
      assert forall i :: 0 <= i < |more| ==> more[i] == Lines(s)[|Lines(s)| - |more| + i];
      NoNamesNone(s[n + 1..]);
    }
  }

  /** The lines begin a record and no other. */
  predicate Opens(lines: seq<string>) {
    lines != [] && IsName(lines[0]) && NoNames(lines[1..])
  }

  lemma OpensLast(s: string)
    requires s != "" && s[0] != '\0' && Opens(Lines(s))
    ensures LastName(s) == Some(0)
  {
    hide FirstNul, IsName;
    var n := FirstNul(s);
    assert Lines(s)[1..] == Lines(s[n + 1..]);
    NoNamesNone(s[n + 1..]);
  }

  lemma {:induction false} BodyAll(lines: seq<string>)
    requires NoNames(lines)
    ensures BodyLength(lines) == |lines|
  {
    hide IsName;
    if lines != [] {
      BodyAll(lines[1..]);
    }
  }

  lemma OneRecord(lines: seq<string>)
    requires Opens(lines)
    ensures RecordsOf(lines) == [lines]
  {
    hide IsName, BodyLength;
    BodyAll(lines[1..]);
    assert lines[..|lines|] == lines;
  }

  // ---------- adding a record ----------

  lemma AddOpens(env: Env, a: seq<string>, b: seq<string>)
    requires b != [] && IsName(b[0])
    ensures var l, r := AddLines(env, a), AddLines(env, b);
            AddLines(env, a + b) == if l.ok then Added(l.portals + r.portals, r.ok) else l
  {
    hide RecordsOf, AddRecords, AreRecords, IsName;
    RecordsAppend(a, b);
    RecordsAre(a);
    RecordsAre(b);
    AddRecordsAppend(env, RecordsOf(a), RecordsOf(b));
  }

  lemma AddOne(env: Env, lines: seq<string>)
    requires Opens(lines)
    ensures AddLines(env, lines) == AddTarget(env, lines[0][11..], lines[1..])
  {
    hide RecordsOf, AddTarget, AddRecords;
    OneRecord(lines);
    RecordsAre(lines);
    AddSingle(env, lines);
  }

  lemma AddSingle(env: Env, record: seq<string>)
    requires record != [] && IsName(record[0])
    ensures AreRecords([record]) && AddRecords(env, [record]) == AddRecord(env, record)
  {
    hide AddRecord, IsName;
    var a := AddRecord(env, record);
    assert a.portals + [] == a.portals;
    assert [record][1..] == [];
  }

  lemma AddNone(env: Env, lines: seq<string>)
    requires NoNames(lines)
    ensures AddLines(env, lines) == Added([], true)
  {
    NoRecords(lines);
  }

  // ---------- the scan ----------

  /** The lines before `b` have been seen; the last record so far begins at `record`, and
      the portals of those before it are `done`. */
  ghost predicate Seen(env: Env, d: string, b: nat, record: Option<nat>, done: seq<Portal>) {
    && b <= |d| && Boundary(d[..b])
    && match record
       case None => NoNames(Lines(d[..b])) && done == []
       case Some(r) =>
         && r < b && Boundary(d[..r]) && d[r] != '\0' && Opens(Lines(d[r..b]))
         && AddLines(env, Lines(d[..r])) == Added(done, true)
  }

  /** Where the name of the current record ends. */
  lemma NameEnd(env: Env, d: string, r: nat, b: nat, end: nat, done: seq<Portal>) returns (e: nat)
    requires Seen(env, d, b, Some(r), done) && end <= b && (end == b || (end + 1 == b && d[end] == '\0'))
    ensures r + 11 <= e < b && e <= end && '\0' !in d[r..e] && d[e] == '\0' && IsName(d[r..e]) && Boundary(d[r..b])
    ensures e == r + 11 + FirstNul(d[r + 11..end])
  {
    hide AddLines, NoNames, FirstNul, Lines;
    TailBoundary(d, r, b);
    e := FirstLineEnd(d, r, b);
    assert IsName(d[r..e]);
    NameBehind(d, r, e, end);
  }

  lemma FirstLineEnd(d: string, r: nat, b: nat) returns (e: nat)
    requires r < b <= |d| && Boundary(d[r..b]) && d[r] != '\0'
    ensures r < e < b && '\0' !in d[r..e] && d[e] == '\0' && Lines(d[r..b]) != [] && Lines(d[r..b])[0] == d[r..e]
  {
    hide FirstNul, Lines;
    var s := d[r..b];
    BoundaryNul(s);
    e := r + FirstNul(s);
    assert s[..e - r] == d[r..e] && s[0] == d[r] && s[e - r] == d[e];
    FirstLine(s, e - r);
  }

  lemma NameBehind(d: string, r: nat, e: nat, end: nat)
    requires r <= e <= end <= |d| && e < |d| && '\0' !in d[r..e] && d[e] == '\0' && IsName(d[r..e])
    ensures r + 11 <= e && e == r + 11 + FirstNul(d[r + 11..end])
  {
    hide FirstNul;
    assert |d[r..e]| >= 11;
    var t := d[r + 11..end];
    assert d[r + 11..e] == d[r..e][11..];
    if e < end {
      assert t[..e - r - 11] == d[r + 11..e] && t[e - r - 11] == d[e];
      FirstNulIs(t, e - r - 11);
    } else {
      FirstNulNone(t);
    }
  }

  lemma SeenNothing(env: Env, d: string)
    ensures Seen(env, d, 0, None, [])
  {
    hide Lines;
    assert d[..0] == "";
    NoLines();
  }

  lemma SeenBounds(env: Env, d: string, b: nat, record: Option<nat>, done: seq<Portal>)
    requires Seen(env, d, b, record, done)
    ensures b <= |d| && (record.Some? ==> record.value < b)
  {
  }

  lemma SeenBoundary(env: Env, d: string, b: nat, record: Option<nat>, done: seq<Portal>)
    requires Seen(env, d, b, record, done)
    ensures b <= |d| && Boundary(d[..b])
  {
  }

  lemma NoneYet(env: Env, d: string, b: nat, done: seq<Portal>)
    requires Seen(env, d, b, None, done)
    ensures AddLines(env, Lines(d[..b])) == Added(done, true) && Boundary(d[..b])
  {
    hide Lines, AddLines;
    AddNone(env, Lines(d[..b]));
  }

  lemma TailBoundary(d: string, r: nat, b: nat)
    requires r <= b <= |d| && Boundary(d[..b])
    ensures Boundary(d[r..b])
  {
  }

  lemma SkipSeen(env: Env, d: string, b: nat, t: nat, record: Option<nat>, done: seq<Portal>)
    requires Seen(env, d, b, record, done) && b <= t <= |d| && forall i :: b <= i < t ==> d[i] == '\0'
    ensures Seen(env, d, t, record, done)
  {
    hide Lines, AddLines, NoNames, Opens;
    assert d[0..b] == d[..b] && d[0..t] == d[..t];
    NulsAdd(d, 0, b, t);
    if record.Some? {
      TailBoundary(d, record.value, b);
      NulsAdd(d, record.value, b, t);
    }
  }

  lemma LineSeen(env: Env, d: string, b: nat, e: nat, record: Option<nat>, done: seq<Portal>)
    requires Seen(env, d, b, record, done) && b < e < |d| && '\0' !in d[b..e] && d[e] == '\0' && !IsName(d[b..e])
    ensures Seen(env, d, e + 1, record, done)
  {
    hide Lines, AddLines, IsName;
    assert d[0..b] == d[..b] && d[0..e + 1] == d[..e + 1];
    LineAdds(d, 0, b, e);
    if record.Some? {
      TailBoundary(d, record.value, b);
      LineAdds(d, record.value, b, e);
    }
  }

  lemma NameSeen(env: Env, d: string, b: nat, e: nat, done: seq<Portal>)
    requires b < e < |d| && Boundary(d[..b]) && '\0' !in d[b..e] && d[e] == '\0' && IsName(d[b..e])
    requires AddLines(env, Lines(d[..b])) == Added(done, true)
    ensures Seen(env, d, e + 1, Some(b), done)
  {
    hide Lines, AddLines, IsName;
    assert d[0..b] == d[..b] && d[0..e + 1] == d[..e + 1];
    LineAdds(d, 0, b, e);
    assert d[b..b] == "";
    LineAdds(d, b, b, e);
    NoLines();
    assert [d[b..e]][1..] == [];
    assert d[b..e][0] == d[b];
  }

  /** The record that begins at `r` ends at `b`, where another begins or the text ends. */
  lemma RecordSeen(env: Env, d: string, r: nat, b: nat, done: seq<Portal>)
    requires Seen(env, d, b, Some(r), done)
    ensures var lines := Lines(d[r..b]); var a := AddTarget(env, lines[0][11..], lines[1..]);
            AddLines(env, Lines(d[..b])) == Added(done + a.portals, a.ok)
  {
    hide Lines, AddLines, AddTarget, NoNames, IsName;
    assert d[..b] == d[..r] + d[r..b];
    LinesAppend(d[..r], d[r..b]);
    AddOpens(env, Lines(d[..r]), Lines(d[r..b]));
    AddOne(env, Lines(d[r..b]));
  }

  /** The same record as text: its name, and the piece behind it. */
  lemma RecordText(env: Env, d: string, r: nat, e: nat, b: nat, end: nat)
    requires r < e < b <= |d| && '\0' !in d[r..e] && d[e] == '\0' && Boundary(d[r..b]) && IsName(d[r..e])
    requires e <= end <= b && (end == b || (end + 1 == b && d[end] == '\0'))
    ensures var lines := Lines(d[r..b]);
            && lines != [] && lines[0] == d[r..e] && lines[1..] == Piece(d, e, end)
  {
    hide Lines, Piece;
    var s := d[r..b];
    assert s[..e - r] == d[r..e] && s[e - r + 1..] == d[e + 1..b];
    LinesUnfold(s, e - r);
    assert ([d[r..e]] + Lines(d[e + 1..b]))[1..] == Lines(d[e + 1..b]);
    PieceEnd(d, e, end, b);
  }

  lemma PieceEnd(d: string, e: nat, end: nat, b: nat)
    requires e < b <= |d| && d[e] == '\0' && e <= end <= b && (end == b || (end + 1 == b && d[end] == '\0'))
    requires d[b - 1] == '\0'
    ensures Piece(d, e, end) == Lines(d[e + 1..b])
  {
    hide Lines;
    if e == end {
      EmptyPiece(d, e);
      assert d[e + 1..b] == "";
      NoLines();
    } else {
      PieceStep(d, e, e, end);
      if end == b {
        BoundaryPiece(d, e + 1, b);
      } else {
        assert d[e + 1..end] + "\0" == d[e + 1..b];
      }
    }
  }

  // ---------- the end of the scan ----------

  lemma NameFirst(s: string, n: nat)
    requires n < |s| && '\0' !in s[..n] && s[n] == '\0' && IsName(s[..n])
    ensures LastName(s).Some? && (LastName(s).value == 0 || LastName(s).value > n)
  {
    hide FirstNul, IsName;
    FirstNulIs(s, n);
  }

  lemma FirstLine(s: string, n: nat)
    requires 0 < n < |s| && '\0' !in s[..n] && s[n] == '\0'
    ensures Lines(s) != [] && Lines(s)[0] == s[..n]
  {
    hide FirstNul, Lines;
    LinesUnfold(s, n);
  }

  /** Failing records are final: whatever follows the name at `b` adds nothing. */
  lemma FailureStays(env: Env, d: string, b: nat, e: nat, hi: nat)
    requires b < e < |d| && Boundary(d[..b]) && '\0' !in d[b..e] && d[e] == '\0' && IsName(d[b..e])
    requires !AddLines(env, Lines(d[..b])).ok && (hi == b || e < hi <= |d|)
    ensures AddLines(env, Lines(d[..hi])) == AddLines(env, Lines(d[..b]))
  {
    hide Lines, AddLines, IsName;
    if e < hi {
      var y := d[b..hi];
      assert d[..hi] == d[..b] + y;
      LinesAppend(d[..b], y);
      assert y[..e - b] == d[b..e];
      FirstLine(y, e - b);
      AddOpens(env, Lines(d[..b]), Lines(y));
    }
  }

  lemma ScanFails(env: Env, d: string, r: nat, b: nat, e: nat, done: seq<Portal>, final: bool)
    requires Seen(env, d, b, Some(r), done)
    requires b < e < |d| && '\0' !in d[b..e] && d[e] == '\0' && IsName(d[b..e])
    requires var lines := Lines(d[r..b]); !AddTarget(env, lines[0][11..], lines[1..]).ok
    ensures var lines := Lines(d[r..b]);
            Process(env, d, final) == Outcome(done + AddTarget(env, lines[0][11..], lines[1..]).portals, "")
  {
    hide Lines, AddLines, AddTarget, IsName, LastName, Opens;
    RecordSeen(env, d, r, b, done);
    var s := d[b..];
    assert s[..e - b] == d[b..e];
    NameFirst(s, e - b);
    LastNameShift(d, b);
    var p := LastName(d).value;
    FailureStays(env, d, b, e, p);
    FailureStays(env, d, b, e, |d|);
    assert d[..|d|] == d;
  }

  lemma ScanDone(env: Env, d: string, nul: nat, record: Option<nat>, done: seq<Portal>)
    requires nul < |d| && Seen(env, d, nul + 1, record, done) && '\0' !in d[nul + 1..]
    ensures LastName(d) == record && Lines(d) == Lines(d[..nul + 1])
  {
    hide Lines, AddLines, LastName, NoNames, Opens;
    EndsAt(d, 0, nul);
    assert d[0..] == d && d[0..nul + 1] == d[..nul + 1];
    if record.Some? {
      var r := record.value;
      TailBoundary(d, r, nul + 1);
      EndsAt(d, r, nul);
      OpensLast(d[r..]);
      LastNameShift(d, r);
    } else {
      NoNamesNone(d);
    }
  }

  lemma EndsAt(d: string, r: nat, nul: nat)
    requires r <= nul < |d| && Boundary(d[r..nul + 1]) && '\0' !in d[nul + 1..]
    ensures Lines(d[r..]) == Lines(d[r..nul + 1])
  {
    hide Lines;
    var x := d[nul + 1..];
    assert d[r..] == d[r..nul + 1] + x;
    NoNulNoLines(x);
    LinesAppend(d[r..nul + 1], x);
  }

  /** What the scan leaves when it reaches the last NUL. */
  lemma ScanResult(env: Env, d: string, nul: nat, record: Option<nat>, done: seq<Portal>, final: bool)
    requires nul < |d| && Seen(env, d, nul + 1, record, done) && '\0' !in d[nul + 1..]
    ensures record.None? ==> Process(env, d, final) == Outcome([], d) && done == []
    ensures record.Some? && !final ==> Process(env, d, final) == Outcome(done, d[record.value..])
    ensures record.Some? && final ==>
              var lines := Lines(d[record.value..nul + 1]);
              Process(env, d, final) == Outcome(done + AddTarget(env, lines[0][11..], lines[1..]).portals, "")
  {
    hide Lines, AddLines, AddTarget, LastName, NoNames, IsName;
    ScanDone(env, d, nul, record, done);
    if record.Some? {
      RecordSeen(env, d, record.value, nul + 1, done);
    }
  }

  lemma Unscanned(env: Env, d: string, final: bool)
    requires '\0' !in d[(if d == "" then 0 else 1)..]
    ensures Process(env, d, final) == Outcome([], d)
  {
    hide AddLines, Lines;
    if d != "" {
      NoNulNoLines(d[1..]);
      if d[0] == '\0' {
        FirstNulIs(d, 0);
        EmptyNoName();
        assert d[..0] == "";
      } else {
        assert d == [d[0]] + d[1..];
        NoNulNoLines(d);
      }
    } else {
      NoNulNoLines(d);
    }
  }
}
