/** pgen's DFA tables with accelerators, and the decisions the generated
    handler takes from them: token classification and the packed-entry
    decode.  The tables are inputs; their construction is not part of this
    model. */
module Accel {
  import opened Errors
  import opened Tokens
  import Text

  /** `(arcs, (accel_upper, accel_lower, accel_table), accept)`. */
  datatype DfaState = DfaState(arcs: seq<(int, int)>, upper: int, lower: int, table: seq<int>, accept: bool)

  /** `(dfa_num, dfa_name, dfa_initial, states, ...)`. */
  datatype Dfa = Dfa(num: int, name: string, initial: int, states: seq<DfaState>)

  /** A grammar label `(kind, text-or-None)`. */
  datatype LabelEntry = LabelEntry(kind: int, text: Option<string>)

  /** `(dfas, labels, start, accel)`. */
  datatype Grammar = Grammar(dfas: seq<Dfa>, labels: seq<LabelEntry>, start: int, accel: bool)

  /** Python's `s[i]`, negative indices counting from the end. */
  function PyIndex<T>(s: seq<T>, i: int): (r: Result<T>)
    ensures r.Ok? <==> -|s| <= i < |s|
    ensures 0 <= i < |s| ==> r == Ok(s[i])
    ensures -|s| <= i < 0 ==> r == Ok(s[|s| + i])
  {
    if 0 <= i < |s| then Ok(s[i])
    else if -|s| <= i < 0 then Ok(s[|s| + i])
    else Err(IndexErr)
  }

  // ------------------------------------------------------------ classify

  /** `label_map` of `pgen_grammar_to_handlers`: each label to the index of
      its last occurrence (a later `label_map[label] = i` overwrites). */
  function LabelMap(labels: seq<LabelEntry>): (m: map<LabelEntry, int>)
    ensures forall l :: l in m ==> 0 <= m[l] < |labels|
  {
    if labels == [] then map[]
    else
      var n := |labels| - 1;
      LabelMap(labels[..n])[labels[n] := n]
  }

  /** Every label is in the map, at an index holding it, and no later index
      holds it. */
  lemma {:induction false} LabelMapSpec(labels: seq<LabelEntry>)
    ensures var m := LabelMap(labels);
            && (forall l :: l in m <==> l in labels)
            && (forall l :: l in m ==> labels[m[l]] == l)
            && (forall l, j :: l in m && m[l] < j < |labels| ==> labels[j] != l)
  {
    if labels != [] {
      var n := |labels| - 1;
      var init := labels[..n];
      LabelMapSpec(init);
      assert labels == init + [labels[n]];
      assert forall j :: 0 <= j < n ==> labels[j] == init[j];
    }
  }

  /** `classify`: a NAME whose text is a keyword label maps to that label;
      any other token to its `(kind, None)` label; an unknown kind to -1. */
  function Classify(labels: seq<LabelEntry>, t: Token): int {
    var m := LabelMap(labels);
    var kw := LabelEntry(t.kind, Some(t.text));
    if t.kind == NAME && kw in m then m[kw]
    else if LabelEntry(t.kind, None) in m then m[LabelEntry(t.kind, None)]
    else -1
  }

  lemma {:induction false} ClassifySpec(labels: seq<LabelEntry>, t: Token)
    ensures var i := Classify(labels, t);
            var kw := LabelEntry(NAME, Some(t.text));
            var plain := LabelEntry(t.kind, None);
            && (t.kind == NAME && kw in labels ==> 0 <= i < |labels| && labels[i] == kw)
            && (!(t.kind == NAME && kw in labels) && plain in labels ==> 0 <= i < |labels| && labels[i] == plain)
            && (!(t.kind == NAME && kw in labels) && plain !in labels ==> i == -1)
            && (i >= 0 ==> forall j :: i < j < |labels| ==> labels[j] != labels[i])
  {
    LabelMapSpec(labels);
  }

  // --------------------------------------------------- accelerator entries

  /** The action a non-empty accelerator entry stands for. */
  datatype Action = Shift(target: int) | PushNt(nt: int, resume: int)

  /** `accel_result & (1 << 7)` is non-zero; Python's `&` and `>>` floor, as
      Dafny's division by a positive number does. */
  predicate Bit7(entry: int) {
    (entry / 128) % 2 == 1
  }

  /** The branch on bit 7 in the handler: PUSH of nonterminal
      `(entry >> 8) + NT_OFFSET` resuming at `entry & 127`, else SHIFT to `entry`. */
  function Decode(entry: int): (a: Action)
    ensures a.PushNt? <==> Bit7(entry)
  {
    if Bit7(entry) then PushNt(entry / 256 + NT_OFFSET, entry % 128) else Shift(entry)
  }

  /** The packing the generator uses: the reference the decode inverts. */
  function Encode(a: Action): int {
    match a
    case Shift(t) => t
    case PushNt(nt, r) => (nt - NT_OFFSET) * 256 + 128 + r
  }

  lemma DivMod256(e: int)
    ensures e == (e / 256) * 256 + e % 256 && 0 <= e % 256 < 256
  {
  }

  /** Every entry is the packing of its decode. */
  lemma {:induction false} DecodeRoundTrip(entry: int)
    ensures Encode(Decode(entry)) == entry
  {
    var q := entry / 256;
    var r := entry % 256;
    DivMod256(entry);
    assert entry == q * 256 + r;
    if r >= 128 {
      assert entry == (2 * q + 1) * 128 + (r - 128);
      assert entry / 128 == 2 * q + 1;
      assert entry % 128 == r - 128;
    } else {
      assert entry == (2 * q) * 128 + r;
      assert entry / 128 == 2 * q;
    }
  }

  /** Packing then decoding gives the action back, for the generator's ranges:
      a SHIFT target below 128 and a PUSH resume state below 128. */
  lemma {:induction false} EncodeRoundTrip(a: Action)
    requires a.Shift? ==> 0 <= a.target < 128
    requires a.PushNt? ==> 0 <= a.resume < 128
    ensures Decode(Encode(a)) == a
  {
    match a
    case Shift(t) =>
      assert t / 128 == 0;
    case PushNt(nt, r) =>
      var k := nt - NT_OFFSET;
      var e := k * 256 + 128 + r;
      assert e == (2 * k + 1) * 128 + r;
      assert e / 128 == 2 * k + 1;
      assert e % 128 == r;
      assert e == k * 256 + (128 + r);
      assert e / 256 == k;
  }

  /** What the handler does with the current lookahead label in a state:
      `None` when the label is outside `[lower, upper)` or its entry is -1.
      Its partner is the packing: `DecodeRoundTrip` and `EncodeRoundTrip`. */
  function Lookup(st: DfaState, ilabel: int): (r: Result<Option<Action>>)
    ensures !(st.lower <= ilabel < st.upper) ==> r == Ok(None)
    ensures st.lower <= ilabel < st.upper && ilabel - st.lower < |st.table| ==>
              r == Ok(if st.table[ilabel - st.lower] == -1 then None else Some(Decode(st.table[ilabel - st.lower])))
    ensures st.lower <= ilabel < st.upper && ilabel - st.lower >= |st.table| ==> r == Err(IndexErr)
  {
    if st.lower <= ilabel && ilabel < st.upper then
      var entry :- PyIndex(st.table, ilabel - st.lower);
      if entry != -1 then Ok(Some(Decode(entry))) else Ok(None)
    else Ok(None)
  }

  /** After a SHIFT into this state the handler stops at once. */
  predicate StopsAfterShift(st: DfaState) {
    st.accept && |st.arcs| == 1
  }

  /** The candidate labels the error path computes (and then drops):
      `symbol_tab[accel_lower + i]` for every entry that is not -1. */
  function Candidates(labels: seq<LabelEntry>, lower: int, table: seq<int>): (r: Result<seq<LabelEntry>>)
    ensures r.Ok? ==> |r.value| <= |table|
    decreases |table|
  {
    if table == [] then Ok([])
    else
      var rest :- Candidates(labels, lower + 1, table[1..]);
      if table[0] == -1 then Ok(rest)
      else
        var l :- PyIndex(labels, lower);
        Ok([l] + rest)
  }

  /** The label indices `lower + i` of the entries that are not -1, in
      increasing order. */
  function Picked(lower: int, table: seq<int>): (r: seq<int>)
    ensures forall k :: 0 <= k < |r| ==> lower <= r[k] < lower + |table| && table[r[k] - lower] != -1
    ensures forall k, l :: 0 <= k < l < |r| ==> r[k] < r[l]
    ensures forall i :: 0 <= i < |table| && table[i] != -1 ==> lower + i in r
    decreases |table|
  {
    if table == [] then []
    else
      var rest := Picked(lower + 1, table[1..]);
      assert forall i :: 1 <= i < |table| ==> table[1..][i - 1] == table[i];
      (if table[0] != -1 then [lower] else []) + rest
  }

  /** Every index the candidate list reads lies inside the label list. */
  predicate AllInside(labels: seq<LabelEntry>, lower: int, table: seq<int>) {
    forall i :: 0 <= i < |table| && table[i] != -1 ==> -|labels| <= lower + i < |labels|
  }

  lemma AllInsideCons(labels: seq<LabelEntry>, lower: int, table: seq<int>)
    requires table != []
    ensures AllInside(labels, lower, table)
            <==> (table[0] != -1 ==> -|labels| <= lower < |labels|) && AllInside(labels, lower + 1, table[1..])
  {
    assert forall i :: 0 <= i < |table[1..]| ==> table[1..][i] == table[i + 1];
    if (table[0] != -1 ==> -|labels| <= lower < |labels|) && AllInside(labels, lower + 1, table[1..]) {
      forall i | 0 <= i < |table| && table[i] != -1
        ensures -|labels| <= lower + i < |labels|
      {
        if i > 0 { assert table[1..][i - 1] == table[i]; }
      }
    }
  }

  /** The candidate list fails, with IndexError, exactly when a picked index
      is outside the label list. */
  lemma {:induction false} CandidatesFail(labels: seq<LabelEntry>, lower: int, table: seq<int>)
    ensures var r := Candidates(labels, lower, table);
            && (r.Ok? <==> AllInside(labels, lower, table))
            && (r.Err? ==> r.error == IndexErr)
    decreases |table|
  {
    if table != [] {
      CandidatesFail(labels, lower + 1, table[1..]);
      AllInsideCons(labels, lower, table);
    }
  }

  /** The candidates are the labels at the picked indices, in order. */
  lemma {:induction false} CandidatesPicked(labels: seq<LabelEntry>, lower: int, table: seq<int>)
    ensures var r := Candidates(labels, lower, table);
            r.Ok? ==> AtIndices(labels, Picked(lower, table), r.value)
    decreases |table|
  {
    if table != [] {
      var tl := table[1..];
      CandidatesPicked(labels, lower + 1, tl);
      var rest := Candidates(labels, lower + 1, tl);
      var r := Candidates(labels, lower, table);
      assert Picked(lower, table) == (if table[0] != -1 then [lower] else []) + Picked(lower + 1, tl);
      if r.Ok? && table[0] != -1 {
        assert r.value == [PyIndex(labels, lower).value] + rest.value;
        AtIndicesCons(labels, lower, Picked(lower + 1, tl), PyIndex(labels, lower).value, rest.value);
      } else if r.Ok? {
        assert Picked(lower, table) == Picked(lower + 1, tl);
      }
    }
  }

  /** `xs` holds the labels at the indices `ix`, in order. */
  predicate AtIndices(labels: seq<LabelEntry>, ix: seq<int>, xs: seq<LabelEntry>) {
    |xs| == |ix| && forall k :: 0 <= k < |xs| ==> PyIndex(labels, ix[k]) == Ok(xs[k])
  }

  lemma AtIndicesCons(labels: seq<LabelEntry>, i: int, ix: seq<int>, x: LabelEntry, xs: seq<LabelEntry>)
    requires PyIndex(labels, i) == Ok(x) && AtIndices(labels, ix, xs)
    ensures AtIndices(labels, [i] + ix, [x] + xs)
  {
    forall k | 0 <= k < |xs| + 1
      ensures PyIndex(labels, ([i] + ix)[k]) == Ok(([x] + xs)[k])
    {
      if k > 0 {
        assert ([i] + ix)[k] == ix[k - 1] && ([x] + xs)[k] == xs[k - 1];
      }
    }
  }

  /** The candidates are the labels at `lower + i` for each entry `i` that
      is not -1, in order; the list fails, with IndexError, exactly when one
      of those indices is outside the label list. */
  lemma CandidatesSpec(labels: seq<LabelEntry>, lower: int, table: seq<int>)
    ensures var r := Candidates(labels, lower, table);
            && (r.Ok? <==> forall i :: 0 <= i < |table| && table[i] != -1 ==> -|labels| <= lower + i < |labels|)
            && (r.Err? ==> r.error == IndexErr)
            && (r.Ok? ==> |r.value| == |Picked(lower, table)|
                          && forall k :: 0 <= k < |r.value| ==> PyIndex(labels, Picked(lower, table)[k]) == Ok(r.value[k]))
  {
    CandidatesFail(labels, lower, table);
    CandidatesPicked(labels, lower, table);
  }

  /** `"Line %d, column %d, unexpected '%s'."` */
  function UnexpectedMessage(t: Token): string {
    "Line " + Text.IntToDec(t.start.line) + ", column " + Text.IntToDec(t.start.col) + ", unexpected '" + t.text + "'."
  }
}
