/** Cursor loops of usr/discovery.c over the buffered response, and the facts about lines
    that relate positions in the buffer to records. */
module TargetText {
  import opened CText
  import opened SendTargets

  /** The lines of a piece of the buffer that is followed by a NUL. */
  function Piece(data: string, lo: nat, hi: nat): seq<string>
    requires lo <= hi <= |data|
  {
    Lines(data[lo..hi] + "\0")
  }

  lemma NulLine()
    ensures Lines("\0") == []
  {
    LinesUnfold("\0", 0);
    assert "\0"[1..] == "";
    NoLines();
  }

  lemma EmptyPiece(data: string, lo: nat)
    requires lo <= |data|
    ensures Piece(data, lo, lo) == []
  {
    hide Lines;
    assert data[lo..lo] + "\0" == "\0";
    NulLine();
  }

  /** The first line of a piece, and the piece behind it. */
  lemma PieceStep(data: string, lo: nat, e: nat, hi: nat)
    requires lo <= e <= hi <= |data| && '\0' !in data[lo..e] && (e < hi ==> data[e] == '\0')
    ensures Piece(data, lo, hi) == (if e == lo then [] else [data[lo..e]]) + (if e < hi then Piece(data, e + 1, hi) else [])
  {
    hide Lines;
    var s := data[lo..hi] + "\0";
    assert s[..e - lo] == data[lo..e];
    LinesUnfold(s, e - lo);
    if e < hi {
      assert s[e - lo + 1..] == data[e + 1..hi] + "\0";
    } else {
      assert s[e - lo + 1..] == "";
      NoLines();
    }
  }

  /** A piece that ends at a line boundary has the lines of its text. */
  lemma BoundaryPiece(data: string, lo: nat, hi: nat)
    requires lo <= hi <= |data| && Boundary(data[lo..hi])
    ensures Piece(data, lo, hi) == Lines(data[lo..hi])
  {
    hide Lines;
    LinesAppend(data[lo..hi], "\0");
    NulLine();
  }

  // ---------- cursor loops ----------

  method FindNul(data: string, lo: nat, hi: nat) returns (e: nat)
    requires lo <= hi <= |data|
    ensures lo <= e <= hi && '\0' !in data[lo..e] && (e < hi ==> data[e] == '\0')
    ensures e == lo + FirstNul(data[lo..hi])
  {
    hide FirstNul;
    e := lo;
    while e < hi && data[e] != '\0'
      invariant lo <= e <= hi && forall i :: lo <= i < e ==> data[i] != '\0'
    {
      e := e + 1;
    }
    FirstNulFrom(data, lo, e, hi);
  }

  lemma FirstNulFrom(data: string, lo: nat, e: nat, hi: nat)
    requires lo <= e <= hi <= |data| && (e < hi ==> data[e] == '\0') && forall i :: lo <= i < e ==> data[i] != '\0'
    ensures '\0' !in data[lo..e] && e == lo + FirstNul(data[lo..hi])
  {
    hide FirstNul;
    var s := data[lo..hi];
    assert s[..e - lo] == data[lo..e];
    if e < hi {
      assert s[e - lo] == data[e];
      FirstNulIs(s, e - lo);
    } else {
      FirstNulNone(s);
    }
  }

  lemma FirstNulNone(s: string)
    requires '\0' !in s
    ensures FirstNul(s) == |s|
  {
    hide FirstNul;
  }

  /** Scan backwards for the last NUL. */
  method LastNulOf(data: string) returns (nul: nat)
    ensures nul == 0 ==> '\0' !in data[(if data == "" then 0 else 1)..]
    ensures nul > 0 ==> nul < |data| && data[nul] == '\0' && '\0' !in data[nul + 1..]
  {
    if data == "" {
      return 0;
    }
    nul := |data| - 1;
    while nul > 0 && data[nul] != '\0'
      invariant nul < |data| && '\0' !in data[nul + 1..]
    {
      assert data[nul..] == [data[nul]] + data[nul + 1..];
      nul := nul - 1;
    }
  }

  lemma SamePiece(data: string, d: string, lo: nat, hi: nat)
    requires lo <= hi <= |data| == |d| && forall i :: lo <= i < |d| ==> data[i] == d[i]
    ensures Piece(data, lo, hi) == Piece(d, lo, hi)
  {
    assert data[lo..hi] == d[lo..hi];
  }

  lemma SomePiece(data: string, lo: nat, hi: nat)
    requires lo < hi <= |data| && data[lo] != '\0'
    ensures Piece(data, lo, hi) != []
  {
    hide Piece, FirstNul;
    var e := lo + FirstNul(data[lo..hi]);
    assert data[lo..hi][..e - lo] == data[lo..e];
    PieceStep(data, lo, e, hi);
    assert data[lo..hi][0] == data[lo];
  }

  /** Skip NULs; the lines ahead are the same. */
  method SkipNuls(data: string, lo: nat, hi: nat) returns (e: nat)
    requires lo <= hi <= |data|
    ensures lo <= e <= hi && (forall i :: lo <= i < e ==> data[i] == '\0') && (e < hi ==> data[e] != '\0')
    ensures Piece(data, lo, hi) == Piece(data, e, hi)
  {
    hide Piece;
    e := lo;
    while e < hi && data[e] == '\0'
      invariant lo <= e <= hi && forall i :: lo <= i < e ==> data[i] == '\0'
      invariant Piece(data, lo, hi) == Piece(data, e, hi)
    {
      PieceStep(data, e, e, hi);
      e := e + 1;
    }
  }

  /** strrchr between two positions */
  method FindLast(data: string, lo: nat, hi: nat, c: char) returns (k: nat)
    requires lo <= hi <= |data|
    ensures lo <= k <= hi && k - lo == LastAt(data[lo..hi], c)
  {
    hide LastAt;
    var i := hi;
    while i > lo
      invariant lo <= i <= hi && c !in data[i..hi]
    {
      i := i - 1;
      if data[i] == c {
        LastAtIs(data[lo..hi], c, i - lo);
        return i;
      }
      assert data[i..hi] == [data[i]] + data[i + 1..hi];
    }
    assert data[lo..hi] == data[i..hi];
    LastAtAbsent(data[lo..hi], c);
    return hi;
  }

  lemma {:induction false} LastAtIs(s: string, c: char, k: nat)
    requires k < |s| && s[k] == c && c !in s[k + 1..]
    ensures LastAt(s, c) == k
    decreases |s|
  {
    if k < |s| - 1 {
      var t := s[..|s| - 1];
      assert s[k + 1..][|s| - k - 2] == s[|s| - 1];
      assert t[k + 1..] == s[k + 1..][..|s| - k - 2];
      LastAtIs(t, c, k);
    }
  }

  lemma {:induction false} LastAtAbsent(s: string, c: char)
    requires c !in s
    ensures LastAt(s, c) == |s|
  {
    hide LastAt;
  }

  method StartsWith(data: string, lo: nat, hi: nat, prefix: string) returns (yes: bool)
    requires lo <= hi <= |data|
    ensures yes <==> prefix <= data[lo..hi]
  {
    if hi - lo < |prefix| {
      return false;
    }
    for i := 0 to |prefix|
      invariant forall k :: 0 <= k < i ==> data[lo + k] == prefix[k]
    {
      if data[lo + i] != prefix[i] {
        assert data[lo..hi][i] != prefix[i];
        return false;
      }
    }
    return true;
  }

  /** Where the separators of an address value are: the tag behind `comma`, the port behind
      `colon`, the host between `from` and `to`. */
  method Dissect(data: string, lo: nat, hi: nat) returns (comma: nat, colon: nat, from: nat, to: nat)
    requires lo <= hi <= |data|
    ensures lo <= from <= to <= colon <= comma <= hi
    ensures forall k :: 0 <= k < hi - lo ==> (IsSeparator(data[lo..hi], k) <==> lo + k in {comma, colon, to})
    ensures ParseAddress(data[lo..hi]) ==
            Parts(data[from..to],
                  if colon < comma then Some(data[colon + 1..comma]) else None,
                  if comma < hi then Some(data[comma + 1..hi]) else None)
  {
    hide LastAt;
    comma := FindLast(data, lo, hi, ',');
    colon := FindLast(data, lo, comma, ':');
    from, to := lo, colon;
    if lo < colon && data[lo] == '[' {
      from := lo + 1;
      to := FindLast(data, from, colon, ']');
    }
    Separated(data, lo, hi, comma, colon, to);
    Dissected(data, lo, hi, comma, colon, to);
  }

  /** `comma`, `colon` and `to` are where the parts of `value` end. */
  predicate EndsAt(value: string, comma: nat, colon: nat, to: nat) {
    && comma == LastAt(value, ',') && colon == LastAt(value[..comma], ':')
    && (if colon > 0 && value[0] == '[' then to == 1 + LastAt(value[1..colon], ']') else to == colon)
  }

  lemma Separated(data: string, lo: nat, hi: nat, comma: nat, colon: nat, to: nat)
    requires lo <= colon <= comma <= hi <= |data|
    requires comma - lo == LastAt(data[lo..hi], ',') && colon - lo == LastAt(data[lo..comma], ':')
    requires if lo < colon && data[lo] == '[' then lo + 1 <= to <= colon && to - lo - 1 == LastAt(data[lo + 1..colon], ']')
             else to == colon
    ensures forall k :: 0 <= k < hi - lo ==> (IsSeparator(data[lo..hi], k) <==> lo + k in {comma, colon, to})
  {
    hide LastAt, IsSeparator, EndsAt;
    EndsThere(data, lo, hi, comma, colon, to);
    SeparatorIs(data[lo..hi], lo, comma - lo, colon - lo, to - lo);
  }

  lemma EndsThere(data: string, lo: nat, hi: nat, comma: nat, colon: nat, to: nat)
    requires lo <= colon <= comma <= hi <= |data|
    requires comma - lo == LastAt(data[lo..hi], ',') && colon - lo == LastAt(data[lo..comma], ':')
    requires if lo < colon && data[lo] == '[' then lo + 1 <= to <= colon && to - lo - 1 == LastAt(data[lo + 1..colon], ']')
             else to == colon
    ensures EndsAt(data[lo..hi], comma - lo, colon - lo, to - lo)
  {
    hide LastAt;
    Head(data, lo, comma, hi);
    if lo < colon {
      Middle(data, lo, colon, hi);
    }
  }

  lemma SeparatorIs(value: string, lo: nat, comma: nat, colon: nat, to: nat)
    requires EndsAt(value, comma, colon, to)
    ensures forall k :: 0 <= k < |value| ==> (IsSeparator(value, k) <==> lo + k in {lo + comma, lo + colon, lo + to})
  {
    hide LastAt;
  }

  lemma Middle(data: string, lo: nat, k: nat, hi: nat)
    requires lo < k <= hi <= |data|
    ensures data[lo..hi][1..k - lo] == data[lo + 1..k] && data[lo..hi][0] == data[lo]
  {
    var a, b := data[lo..hi][1..k - lo], data[lo + 1..k];
    assert |a| == |b| && forall i :: 0 <= i < |a| ==> a[i] == b[i];
  }

  lemma Head(data: string, lo: nat, k: nat, hi: nat)
    requires lo <= k <= hi <= |data|
    ensures data[lo..hi][..k - lo] == data[lo..k]
  {
  }

  lemma Tail(data: string, lo: nat, k: nat, hi: nat)
    requires lo <= k <= hi <= |data|
    ensures After(data[lo..hi], k - lo) == if k < hi then Some(data[k + 1..hi]) else None
  {
    if k < hi {
      assert data[lo..hi][k - lo + 1..] == data[k + 1..hi];
    }
  }

  lemma BareIs(data: string, lo: nat, colon: nat, to: nat)
    requires lo <= colon <= |data|
    requires if lo < colon && data[lo] == '[' then lo + 1 <= to <= colon && to - lo - 1 == LastAt(data[lo + 1..colon], ']')
             else to == colon
    ensures Bare(data[lo..colon]) == data[(if lo < colon && data[lo] == '[' then lo + 1 else lo)..to]
  {
    hide LastAt;
    if lo < colon && data[lo] == '[' {
      assert data[lo..colon][1..] == data[lo + 1..colon];
      Head(data, lo + 1, to, colon);
    }
  }

  lemma Dissected(data: string, lo: nat, hi: nat, comma: nat, colon: nat, to: nat)
    requires lo <= colon <= comma <= hi <= |data|
    requires comma - lo == LastAt(data[lo..hi], ',') && colon - lo == LastAt(data[lo..comma], ':')
    requires if lo < colon && data[lo] == '[' then lo + 1 <= to <= colon && to - lo - 1 == LastAt(data[lo + 1..colon], ']')
             else to == colon
    ensures ParseAddress(data[lo..hi]) ==
            Parts(data[(if lo < colon && data[lo] == '[' then lo + 1 else lo)..to],
                  if colon < comma then Some(data[colon + 1..comma]) else None,
                  if comma < hi then Some(data[comma + 1..hi]) else None)
  {
    hide LastAt, After, Bare;
    Head(data, lo, comma, hi);
    Tail(data, lo, comma, hi);
    Head(data, lo, colon, comma);
    Tail(data, lo, colon, comma);
    BareIs(data, lo, colon, to);
  }
}
