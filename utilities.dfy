/**
 * The string helpers the data readers use (`trim`, `tokenize`), the
 * line-level part of the libsvm conversion (dense rows and the label
 * remap), and the zero-one loss of two label vectors.
 */
module Utilities {
  import opened Outcome
  import opened Definitions

  // ---------------------------------------------------------------- trim

  /** The characters `trim` removes: space and tab. */
  predicate IsBlank(c: char)
  {
    c == ' ' || c == '\t'
  }

  predicate AllBlank(s: string)
  {
    forall i :: 0 <= i < |s| ==> IsBlank(s[i])
  }

  /** `s` without its leading blanks. */
  function TrimLeft(s: string): string
    decreases |s|
  {
    if |s| > 0 && IsBlank(s[0]) then TrimLeft(s[1..]) else s
  }

  /** `s` without its trailing blanks. */
  function TrimRight(s: string): string
    decreases |s|
  {
    if |s| > 0 && IsBlank(s[|s| - 1]) then TrimRight(s[..|s| - 1]) else s
  }

  /** `s` without its leading and trailing blanks. */
  function Trim(s: string): string
  {
    TrimRight(TrimLeft(s))
  }

  /** Dropping a blank prefix `s[..b]` that ends at a non-blank (or at the
      end) is what `TrimLeft` does. */
  lemma {:induction false} TrimLeftAt(s: string, b: int)
    requires 0 <= b <= |s| && AllBlank(s[..b]) && (b < |s| ==> !IsBlank(s[b]))
    ensures TrimLeft(s) == s[b..]
    decreases b
  {
    if b > 0 {
      assert IsBlank(s[..b][0]);
      var t := s[1..][..b - 1];
      forall i | 0 <= i < |t|
        ensures IsBlank(t[i])
      {
        assert t[i] == s[..b][i + 1];
      }
      TrimLeftAt(s[1..], b - 1);
      assert s[1..][b - 1..] == s[b..];
    }
  }

  /** Dropping a blank suffix `s[e..]` that starts after a non-blank (or at
      the start) is what `TrimRight` does. */
  lemma {:induction false} TrimRightAt(s: string, e: int)
    requires 0 <= e <= |s| && AllBlank(s[e..]) && (e > 0 ==> !IsBlank(s[e - 1]))
    ensures TrimRight(s) == s[..e]
    decreases |s| - e
  {
    if e < |s| {
      assert IsBlank(s[e..][|s| - 1 - e]);
      var t := s[..|s| - 1];
      assert forall i :: 0 <= i < |t| - e ==> t[e..][i] == s[e..][i];
      TrimRightAt(t, e);
      assert t[..e] == s[..e];
    }
  }

  /** The result of `trim` is the piece `s[b..e]` of its input: everything
      before it and after it is blank, and it starts and ends with a
      non-blank; it is empty exactly when the whole input is blank. */
  lemma TrimSpan(s: string) returns (b: int, e: int)
    ensures 0 <= b <= e <= |s| && Trim(s) == s[b..e]
    ensures AllBlank(s[..b]) && AllBlank(s[e..])
    ensures b < e ==> !IsBlank(s[b]) && !IsBlank(s[e - 1])
    ensures b == e <==> AllBlank(s)
  {
    b := 0;
    while b < |s| && IsBlank(s[b])
      invariant 0 <= b <= |s| && AllBlank(s[..b])
    {
      b := b + 1;
    }
    TrimLeftAt(s, b);
    var t := s[b..];
    e := |s|;
    while e > b && IsBlank(s[e - 1])
      invariant b <= e <= |s| && AllBlank(s[e..])
      invariant b < |s| ==> b < e
    {
      e := e - 1;
    }
    TrimRightAt(t, e - b);
    assert t[..e - b] == s[b..e];
    if b == e {
      assert s[..b] == s;
    } else {
      assert !IsBlank(s[b]);
    }
  }

  /** Trimming twice is trimming once. */
  lemma TrimIdempotent(s: string)
    ensures Trim(Trim(s)) == Trim(s)
  {
    var b, e := TrimSpan(s);
    var t := Trim(s);
    TrimLeftAt(t, 0);
    TrimRightAt(t, |t|);
    assert t[..0] == [] && t[|t|..] == [];
  }

  /** `trim`: returns the line without leading and trailing spaces and
      tabs, or the empty string when nothing else is left. */
  method TrimLine(line: string) returns (r: string)
    ensures r == Trim(line)
  {
    if |line| == 0 {
      return "";
    }
    var stringSize := |line|;
    var beginningOfString := 0;
    var endOfString := stringSize - 1;
    var encounteredCharacters := false;
    while beginningOfString < stringSize && !encounteredCharacters
      invariant 0 <= beginningOfString <= stringSize && AllBlank(line[..beginningOfString])
      invariant encounteredCharacters ==> beginningOfString < stringSize && !IsBlank(line[beginningOfString])
      decreases stringSize - beginningOfString, !encounteredCharacters
    {
      if !IsBlank(line[beginningOfString]) {
        encounteredCharacters := true;
      } else {
        beginningOfString := beginningOfString + 1;
      }
    }
    TrimLeftAt(line, beginningOfString);
    if beginningOfString == stringSize {
      return "";
    }
    encounteredCharacters := false;
    while endOfString > beginningOfString && !encounteredCharacters
      invariant beginningOfString <= endOfString < stringSize && AllBlank(line[endOfString + 1..])
      invariant encounteredCharacters ==> !IsBlank(line[endOfString])
      decreases endOfString, !encounteredCharacters
    {
      if !IsBlank(line[endOfString]) {
        encounteredCharacters := true;
      } else {
        endOfString := endOfString - 1;
      }
    }
    var t := line[beginningOfString..];
    assert t[endOfString + 1 - beginningOfString..] == line[endOfString + 1..];
    TrimRightAt(t, endOfString + 1 - beginningOfString);
    r := line[beginningOfString..endOfString + 1];
  }

  // ------------------------------------------------------------ tokenize

  datatype TrimStyle = DontTrim | TrimTokens

  /** The maximal runs of characters of `s` that are not in `delimiters`,
      left to right: a character that is no delimiter joins the run of the
      next character when that one is no delimiter either. */
  function Runs(s: string, delimiters: string): (r: seq<string>)
    ensures |s| > 0 && s[0] !in delimiters ==> |r| > 0
    decreases |s|
  {
    if |s| == 0 then []
    else if s[0] in delimiters then Runs(s[1..], delimiters)
    else if |s| > 1 && s[1] !in delimiters then
      var rest := Runs(s[1..], delimiters);
      [[s[0]] + rest[0]] + rest[1..]
    else [[s[0]]] + Runs(s[1..], delimiters)
  }

  /** The runs, each trimmed under `TrimTokens`. */
  function Styled(runs: seq<string>, doTrim: TrimStyle): (r: seq<string>)
    ensures |r| == |runs|
    ensures forall j :: 0 <= j < |runs| ==> r[j] == (if doTrim == DontTrim then runs[j] else Trim(runs[j]))
  {
    if |runs| == 0 then [] else [if doTrim == DontTrim then runs[0] else Trim(runs[0])] + Styled(runs[1..], doTrim)
  }

  /** What `tokenize` returns. */
  function Tokens(s: string, delimiters: string, doTrim: TrimStyle): seq<string>
  {
    Styled(Runs(s, delimiters), doTrim)
  }

  lemma Associative<T>(a: seq<T>, b: seq<T>, c: seq<T>)
    ensures (a + b) + c == a + (b + c)
  {
  }

  /** `find_first_not_of`: the first position from `i` on holding no
      delimiter, or `|s|` for "none". */
  function FirstNotOf(s: string, delimiters: string, i: nat): (r: nat)
    requires i <= |s|
    ensures i <= r <= |s| && (r < |s| ==> s[r] !in delimiters)
    ensures forall k :: i <= k < r ==> s[k] in delimiters
    decreases |s| - i
  {
    if i == |s| then |s| else if s[i] !in delimiters then i else FirstNotOf(s, delimiters, i + 1)
  }

  /** `find_first_of`: the first position from `i` on holding a
      delimiter, or `|s|` for "none". */
  function FirstOf(s: string, delimiters: string, i: nat): (r: nat)
    requires i <= |s|
    ensures i <= r <= |s| && (r < |s| ==> s[r] in delimiters)
    ensures forall k :: i <= k < r ==> s[k] !in delimiters
    decreases |s| - i
  {
    if i == |s| then |s| else if s[i] in delimiters then i else FirstOf(s, delimiters, i + 1)
  }

  /** Delimiters before the next run do not change the runs. */
  lemma {:induction false} RunsSkip(s: string, delimiters: string, i: int, b: int)
    requires 0 <= i <= b <= |s| && forall k :: i <= k < b ==> s[k] in delimiters
    ensures Runs(s[i..], delimiters) == Runs(s[b..], delimiters)
    decreases b - i
  {
    if i < b {
      assert s[i..][1..] == s[i + 1..];
      RunsSkip(s, delimiters, i + 1, b);
    }
  }

  /** A run starts at every non-delimiter after a delimiter and extends to
      the next delimiter or the end: the runs of `s[i..]` are the piece up
      to the first delimiter, then the runs after it. */
  lemma {:induction false} RunsAt(s: string, delimiters: string, i: int)
    requires 0 <= i < |s| && s[i] !in delimiters
    ensures Runs(s[i..], delimiters) == [s[i..FirstOf(s, delimiters, i)]] + Runs(s[FirstOf(s, delimiters, i)..], delimiters)
    decreases |s| - i
  {
    var e := FirstOf(s, delimiters, i);
    assert s[i..][0] == s[i];
    assert s[i..][1..] == s[i + 1..];
    if i + 1 == e {
      assert s[i..e] == [s[i]];
    } else {
      assert s[i..][1] == s[i + 1];
      RunsAt(s, delimiters, i + 1);
      assert FirstOf(s, delimiters, i + 1) == e;
      assert [s[i]] + s[i + 1..e] == s[i..e];
    }
  }

  /** Every token is non-empty and holds no delimiter. */
  lemma {:induction false} RunsShape(s: string, delimiters: string)
    ensures forall j :: 0 <= j < |Runs(s, delimiters)| ==>
              |Runs(s, delimiters)[j]| > 0 && forall c :: c in Runs(s, delimiters)[j] ==> c !in delimiters
    decreases |s|
  {
    if |s| > 0 {
      RunsShape(s[1..], delimiters);
    }
  }

  /** All tokens together, in order. */
  function Concat(ts: seq<string>): string
  {
    if |ts| == 0 then [] else ts[0] + Concat(ts[1..])
  }

  /** The characters of `s` that are no delimiters, in order. */
  function Kept(s: string, delimiters: string): string
  {
    if |s| == 0 then [] else (if s[0] in delimiters then [] else [s[0]]) + Kept(s[1..], delimiters)
  }

  /** The tokens, read one after the other, are the input with the
      delimiters left out: no character is lost, duplicated or moved. */
  lemma {:induction false} RunsConcat(s: string, delimiters: string)
    ensures Concat(Runs(s, delimiters)) == Kept(s, delimiters)
    decreases |s|
  {
    if |s| > 0 {
      RunsConcat(s[1..], delimiters);
      if s[0] !in delimiters && |s| > 1 && s[1] !in delimiters {
        var rest := Runs(s[1..], delimiters);
        assert Concat(rest) == rest[0] + Concat(rest[1..]);
        assert ([[s[0]] + rest[0]] + rest[1..])[1..] == rest[1..];
      } else if s[0] !in delimiters {
        assert ([[s[0]]] + Runs(s[1..], delimiters))[1..] == Runs(s[1..], delimiters);
      }
    }
  }

  /** Empty input, or input made only of delimiters, gives no tokens; any
      other input gives at least one. */
  lemma {:induction false} RunsNone(s: string, delimiters: string)
    ensures Runs(s, delimiters) == [] <==> forall k :: 0 <= k < |s| ==> s[k] in delimiters
    decreases |s|
  {
    if |s| > 0 {
      RunsNone(s[1..], delimiters);
      assert forall k :: 1 <= k < |s| ==> s[k] == s[1..][k - 1];
    }
  }

  /** `tokenize`: the maximal runs of non-delimiters, left to right, each
      trimmed when asked to. */
  method Tokenize(str: string, delimiters: string, doTrim: TrimStyle) returns (tokens: seq<string>)
    ensures tokens == Tokens(str, delimiters, doTrim)
  {
    tokens := [];
    var lastPos := FirstNotOf(str, delimiters, 0);
    var pos := FirstOf(str, delimiters, lastPos);
    RunsSkip(str, delimiters, 0, lastPos);
    assert str[0..] == str;
    while pos < |str| || lastPos < |str|
      invariant lastPos <= pos <= |str| && pos == FirstOf(str, delimiters, lastPos)
      invariant lastPos < |str| ==> str[lastPos] !in delimiters
      invariant tokens + Styled(Runs(str[lastPos..], delimiters), doTrim) == Tokens(str, delimiters, doTrim)
      decreases |str| - lastPos
    {
      RunsAt(str, delimiters, lastPos);
      ghost var t0 := tokens;
      ghost var rest := Runs(str[pos..], delimiters);
      var candidate := str[lastPos..pos];
      ghost var styled := if doTrim == DontTrim then candidate else Trim(candidate);
      assert ([candidate] + rest)[1..] == rest;
      assert Styled([candidate] + rest, doTrim) == [styled] + Styled(rest, doTrim);
      assert t0 + ([styled] + Styled(rest, doTrim)) == Tokens(str, delimiters, doTrim);
      if doTrim == TrimTokens {
        candidate := TrimLine(candidate);
      }
      tokens := tokens + [candidate];
      Associative(t0, [styled], Styled(rest, doTrim));
      lastPos := FirstNotOf(str, delimiters, pos);
      RunsSkip(str, delimiters, pos, lastPos);
      pos := FirstOf(str, delimiters, lastPos);
    }
    assert str[lastPos..] == [];
  }

  // ------------------------------------------------- libsvm line logic

  /** `v` copies of 0.0. */
  function ZeroRow(n: nat): (r: seq<real>)
    ensures |r| == n && forall i :: 0 <= i < n ==> r[i] == 0.0
  {
    if n == 0 then [] else ZeroRow(n - 1) + [0.0]
  }

  /** The dense row of a line whose remaining `(index, value)` pairs are
      `entries`, continuing the row `row` built so far: zeros fill the
      positions up to the 1-based `index`, then the value goes in. A pair
      whose index does not lie past the row is appended as it is. */
  function DenseFrom(row: seq<real>, entries: seq<(int, real)>): seq<real>
    decreases |entries|
  {
    if |entries| == 0 then row
    else
      var (index, value) := entries[0];
      var pad := if |row| < index - 1 then index - 1 - |row| else 0;
      DenseFrom(row + ZeroRow(pad) + [value], entries[1..])
  }

  /** The 1-based indices of the pairs strictly increase. */
  predicate Increasing(entries: seq<(int, real)>)
  {
    (forall j :: 0 <= j < |entries| ==> entries[j].0 >= 1)
    && forall i, j :: 0 <= i < j < |entries| ==> entries[i].0 < entries[j].0
  }

  /** One pair with an index past the row: zeros up to the index, then
      the value, which lands at index - 1. */
  lemma DenseStep(row: seq<real>, entries: seq<(int, real)>)
    requires |entries| > 0 && |row| < entries[0].0
    ensures DenseFrom(row, entries) == DenseFrom(row + ZeroRow(entries[0].0 - 1 - |row|) + [entries[0].1], entries[1..])
  {
  }

  /** With strictly increasing 1-based indices, the dense row extends the
      row it starts from and is as long as the last index. */
  lemma {:induction false} DenseLength(row: seq<real>, entries: seq<(int, real)>)
    requires Increasing(entries) && (|entries| > 0 ==> |row| < entries[0].0)
    ensures |DenseFrom(row, entries)| == (if |entries| == 0 then |row| else entries[|entries| - 1].0)
    ensures DenseFrom(row, entries)[..|row|] == row
    decreases |entries|
  {
    if |entries| > 0 {
      var row' := row + ZeroRow(entries[0].0 - 1 - |row|) + [entries[0].1];
      DenseStep(row, entries);
      assert Increasing(entries[1..]);
      DenseLength(row', entries[1..]);
      assert DenseFrom(row', entries[1..])[..|row|] == DenseFrom(row', entries[1..])[..|row'|][..|row|];
      if |entries| > 1 {
        assert entries[1..][|entries[1..]| - 1] == entries[|entries| - 1];
      }
    }
  }

  /** ... and holds each value at its index - 1. */
  lemma {:induction false} DenseValues(row: seq<real>, entries: seq<(int, real)>)
    requires Increasing(entries) && (|entries| > 0 ==> |row| < entries[0].0)
    ensures forall j :: 0 <= j < |entries| ==>
              0 <= entries[j].0 - 1 < |DenseFrom(row, entries)| && DenseFrom(row, entries)[entries[j].0 - 1] == entries[j].1
    decreases |entries|
  {
    DenseLength(row, entries);
    if |entries| > 0 {
      var row' := row + ZeroRow(entries[0].0 - 1 - |row|) + [entries[0].1];
      var rest := entries[1..];
      DenseStep(row, entries);
      assert Increasing(rest);
      DenseValues(row', rest);
      DenseLength(row', rest);
      var d := DenseFrom(row', rest);
      forall j | 0 <= j < |entries|
        ensures 0 <= entries[j].0 - 1 < |d| && d[entries[j].0 - 1] == entries[j].1
      {
        if j > 0 {
          assert entries[j] == rest[j - 1];
        } else {
          assert d[entries[0].0 - 1] == d[..|row'|][entries[0].0 - 1];
        }
      }
    }
  }

  /** ... and zero at every position past the starting row that no pair
      names. */
  lemma {:induction false} DenseZeros(row: seq<real>, entries: seq<(int, real)>, p: int)
    requires Increasing(entries) && (|entries| > 0 ==> |row| < entries[0].0)
    requires |row| <= p < |DenseFrom(row, entries)|
    requires forall j :: 0 <= j < |entries| ==> entries[j].0 - 1 != p
    ensures DenseFrom(row, entries)[p] == 0.0
    decreases |entries|
  {
    DenseLength(row, entries);
    var row' := row + ZeroRow(entries[0].0 - 1 - |row|) + [entries[0].1];
    var rest := entries[1..];
    DenseStep(row, entries);
    assert Increasing(rest);
    DenseLength(row', rest);
    if p < |row'| {
      assert DenseFrom(row', rest)[p] == DenseFrom(row', rest)[..|row'|][p];
    } else {
      assert forall j :: 0 <= j < |rest| ==> rest[j] == entries[j + 1];
      DenseZeros(row', rest, p);
    }
  }

  /** The dense row of one libsvm line, as the conversion builds it with
      its feature counter. */
  method DenseRow(entries: seq<(int, real)>) returns (instance: seq<real>)
    ensures instance == DenseFrom([], entries)
  {
    instance := [];
    var featIndex := 0;
    var tokIndex := 0;
    while tokIndex < |entries|
      invariant 0 <= tokIndex <= |entries| && featIndex == |instance|
      invariant DenseFrom(instance, entries[tokIndex..]) == DenseFrom([], entries)
    {
      var (index, value) := entries[tokIndex];
      ghost var before := instance;
      while featIndex < index - 1
        invariant featIndex == |instance| && |before| <= |instance|
        invariant |instance| <= (if |before| < index - 1 then index - 1 else |before|)
        invariant instance == before + ZeroRow(|instance| - |before|)
      {
        instance := instance + [0.0];
        featIndex := featIndex + 1;
      }
      assert ZeroRow(if |before| < index - 1 then index - 1 - |before| else 0) == ZeroRow(|instance| - |before|);
      instance := instance + [value];
      featIndex := featIndex + 1;
      assert entries[tokIndex..][1..] == entries[tokIndex + 1..];
      tokIndex := tokIndex + 1;
    }
  }

  /** The longest of the rows: the number of features of the converted
      file. */
  function MaxLength(rows: seq<seq<real>>): (n: nat)
    ensures forall i :: 0 <= i < |rows| ==> |rows[i]| <= n
    ensures |rows| == 0 ==> n == 0
    ensures |rows| > 0 ==> exists i :: 0 <= i < |rows| && |rows[i]| == n
  {
    if |rows| == 0 then 0
    else
      var m := MaxLength(rows[..|rows| - 1]);
      if |rows[|rows| - 1]| > m then |rows[|rows| - 1]| else m
  }

  /** A row as written out: its values, then zeros up to `n` features. */
  function Padded(row: seq<real>, n: nat): (r: seq<real>)
    requires |row| <= n
    ensures |r| == n && r[..|row|] == row
    ensures forall p :: |row| <= p < n ==> r[p] == 0.0
  {
    row + ZeroRow(n - |row|)
  }

  /** The rank of the raw label `x` among the distinct labels `types`:
      how many of them are smaller. */
  function Rank(types: set<int>, x: int): (k: nat)
  {
    |set y | y in types && y < x|
  }

  /** A proper subset is smaller. */
  lemma Smaller<T>(a: set<T>, b: set<T>, x: T)
    requires a <= b && x in b && x !in a
    ensures |a| < |b|
  {
    var d := b - a;
    assert b == a + d && a * d == {};
    assert x in d;
  }

  /** The label map sends the distinct labels, in increasing order, to
      0, 1, ..., K-1: ranks are below the number of distinct labels, and
      they order the labels exactly as the labels order themselves. */
  lemma RankOrder(types: set<int>, x: int, z: int)
    requires x in types && z in types
    ensures Rank(types, x) < |types|
    ensures x < z <==> Rank(types, x) < Rank(types, z)
    ensures x == z <==> Rank(types, x) == Rank(types, z)
  {
    var below := set y | y in types && y < x;
    var belowZ := set y | y in types && y < z;
    Smaller(below, types, x);
    if x < z {
      Smaller(below, belowZ, x);
    } else if z < x {
      Smaller(belowZ, below, z);
    }
  }

  /** The remapped label of every line: the rank of its raw label among
      all raw labels of the file. */
  function Remap(labels: seq<int>): (r: seq<int>)
    ensures |r| == |labels|
    ensures forall i :: 0 <= i < |labels| ==> 0 <= r[i] < |set y | y in labels|
    ensures forall i, j :: 0 <= i < |labels| && 0 <= j < |labels| ==>
              (labels[i] < labels[j] <==> r[i] < r[j]) && (labels[i] == labels[j] <==> r[i] == r[j])
  {
    var types := set y | y in labels;
    forall i, j | 0 <= i < |labels| && 0 <= j < |labels|
      ensures Rank(types, labels[i]) < |types|
      ensures labels[i] < labels[j] <==> Rank(types, labels[i]) < Rank(types, labels[j])
      ensures labels[i] == labels[j] <==> Rank(types, labels[i]) == Rank(types, labels[j])
    {
      RankOrder(types, labels[i], labels[j]);
    }
    seq(|labels|, i requires 0 <= i < |labels| => Rank(types, labels[i]))
  }

  // ------------------------------------------------------ zero-one loss

  /** The number of positions where two label vectors differ. */
  function Mismatches(a: seq<real>, b: seq<real>): (n: nat)
    requires |a| == |b|
    ensures n <= |a|
  {
    if |a| == 0 then 0 else Mismatches(a[..|a| - 1], b[..|b| - 1]) + (if a[|a| - 1] != b[|b| - 1] then 1 else 0)
  }

  /** The loss is zero exactly for equal vectors, and does not depend on
      which vector is the prediction. */
  lemma {:induction false} MismatchesZero(a: seq<real>, b: seq<real>)
    requires |a| == |b|
    ensures Mismatches(a, b) == 0 <==> a == b
    ensures Mismatches(a, b) == Mismatches(b, a)
  {
    if |a| > 0 {
      MismatchesZero(a[..|a| - 1], b[..|b| - 1]);
      if a[..|a| - 1] == b[..|b| - 1] && a[|a| - 1] == b[|b| - 1] {
        assert a == a[..|a| - 1] + [a[|a| - 1]];
        assert b == b[..|b| - 1] + [b[|b| - 1]];
      }
    }
  }

  /** `classificationZeroOneLossFunction`: the number of differing
      positions, or an error when either vector is not a classification
      vector or their sizes differ. */
  method ZeroOneLoss(predictedLabels: Labels, testLabels: Labels) returns (r: Result<real>)
    ensures r.Failure? <==>
              predictedLabels.labelType != Classification || testLabels.labelType != Classification
              || |predictedLabels.labelData| != |testLabels.labelData|
    ensures r.Success? ==> r.value == Mismatches(predictedLabels.labelData, testLabels.labelData) as real
  {
    if predictedLabels.labelType != Classification || testLabels.labelType != Classification {
      return Failure("Input labelType must be Classification");
    }
    var p, t := predictedLabels.labelData, testLabels.labelData;
    if |p| != |t| {
      return Failure("The input two labels have different sizes");
    }
    var loss := 0.0;
    var dataId := 0;
    while dataId < |p|
      invariant 0 <= dataId <= |p|
      invariant loss == Mismatches(p[..dataId], t[..dataId]) as real
    {
      assert p[..dataId + 1][..dataId] == p[..dataId] && t[..dataId + 1][..dataId] == t[..dataId];
      loss := loss + if p[dataId] != t[dataId] then 1.0 else 0.0;
      dataId := dataId + 1;
    }
    assert p[..|p|] == p && t[..|t|] == t;
    r := Success(loss);
  }
}
