/**
 * Text bookkeeping behind the rebuild of a component file: joining the
 * collected pieces, and splicing replacement texts into ranges of the
 * original text.
 */
module Splicing {
  import opened Sequences

  /** `pieces.join('')`: the pieces concatenated in order. */
  function Join(pieces: seq<string>): string
  {
    if pieces == [] then "" else Join(pieces[..|pieces| - 1]) + pieces[|pieces| - 1]
  }

  /** Appending one piece appends its text to the join. */
  lemma JoinSnoc(pieces: seq<string>, piece: string)
    ensures Join(pieces + [piece]) == Join(pieces) + piece
  {
    assert (pieces + [piece])[..|pieces|] == pieces;
  }

  /** Pushing a piece onto both a run and the tail it is known to end with. */
  lemma JoinPush(pieces: seq<string>, before: string, tail: seq<string>, piece: string)
    requires Join(pieces) == before + Join(tail)
    ensures Join(pieces + [piece]) == before + Join(tail + [piece])
  {
    JoinSnoc(pieces, piece);
    JoinSnoc(tail, piece);
    AppendAssoc(before, Join(tail), piece);
  }

  /**
   * Moving text from what is still to come onto the pieces pushed so far
   * leaves the whole unchanged.
   */
  lemma JoinAdvance(pieces: seq<string>, piece: string, after: string, whole: string)
    requires Join(pieces) + (piece + after) == whole
    ensures Join(pieces + [piece]) + after == whole
  {
    JoinSnoc(pieces, piece);
    AppendAssoc(Join(pieces), piece, after);
  }

  /** `JoinAdvance` for two pieces pushed at once. */
  lemma JoinAdvanceTwo(pieces: seq<string>, first: string, second: string, after: string, whole: string)
    requires Join(pieces) + (first + second + after) == whole
    ensures Join(pieces + [first, second]) + after == whole
  {
    AppendAssoc(first, second, after);
    JoinAdvance(pieces, first, second + after, whole);
    JoinAdvance(pieces + [first], second, after, whole);
    assert pieces + [first] + [second] == pieces + [first, second];
  }

  /** One replacement: the half-open range `[start, end)` of a text becomes `text`. */
  datatype Edit = Edit(start: nat, end: nat, text: string)

  /**
   * The edits lie inside `raw`, none starts before `from`, and each one
   * starts at or after the end of the one before it.
   */
  predicate Fits(raw: string, from: nat, edits: seq<Edit>)
    decreases |edits|
  {
    if edits == [] then from <= |raw|
    else from <= edits[0].start <= edits[0].end <= |raw| && Fits(raw, edits[0].end, edits[1..])
  }

  /** `s[lo..hi]` when that is a range of `s`; empty otherwise, which `Fits` rules out. */
  function Slice(s: string, lo: nat, hi: nat): string
  {
    if lo <= hi <= |s| then s[lo..hi] else ""
  }

  /**
   * `raw[from..]` with the range of every edit replaced by that edit's
   * text; meant for edits that fit `raw` from `from`.
   */
  function Splice(raw: string, from: nat, edits: seq<Edit>): string
    decreases |edits|
  {
    if edits == [] then Slice(raw, from, |raw|)
    else Slice(raw, from, edits[0].start) + edits[0].text + Splice(raw, edits[0].end, edits[1..])
  }

  /** Every edit lies at or after `from` and inside `raw`. */
  lemma {:induction false} FitsBounds(raw: string, from: nat, edits: seq<Edit>)
    requires Fits(raw, from, edits)
    ensures from <= |raw|
    ensures forall k :: 0 <= k < |edits| ==> from <= edits[k].start <= edits[k].end <= |raw|
    decreases |edits|
  {
    if edits != [] {
      FitsBounds(raw, edits[0].end, edits[1..]);
      assert forall k :: 1 <= k < |edits| ==> edits[k] == edits[1..][k - 1];
    }
  }

  /**
   * Text before the first edit is copied through: splicing from `from`
   * is copying `raw[from..mid]` and splicing from `mid`.
   */
  lemma {:induction false} SpliceSkip(raw: string, from: nat, mid: nat, edits: seq<Edit>)
    requires from <= mid && Fits(raw, mid, edits)
    ensures Fits(raw, from, edits)
    ensures Splice(raw, from, edits) == raw[from..mid] + Splice(raw, mid, edits)
  {
    if edits == [] {
      SliceSplit(raw, from, mid, |raw|);
    } else {
      var e := edits[0];
      var rest := e.text + Splice(raw, e.end, edits[1..]);
      assert Splice(raw, mid, edits) == raw[mid..e.start] + rest;
      assert Splice(raw, from, edits) == raw[from..e.start] + rest;
      SliceSplit(raw, from, mid, e.start);
      AppendAssoc(raw[from..mid], raw[mid..e.start], rest);
    }
  }

  /** The edit puts back exactly the text of `raw` it replaces. */
  predicate Restores(raw: string, e: Edit)
  {
    e.start <= e.end <= |raw| && e.text == raw[e.start..e.end]
  }

  /** Every edit puts back the text it replaces. */
  predicate AllRestore(raw: string, edits: seq<Edit>)
    decreases |edits|
  {
    edits == [] || (Restores(raw, edits[0]) && AllRestore(raw, edits[1..]))
  }

  /** `AllRestore` says of the list what `Restores` says of each edit. */
  lemma {:induction false} AllRestoreEach(raw: string, edits: seq<Edit>)
    requires forall k :: 0 <= k < |edits| ==> Restores(raw, edits[k])
    ensures AllRestore(raw, edits)
    decreases |edits|
  {
    if edits != [] {
      var rest := edits[1..];
      forall k | 0 <= k < |rest|
        ensures Restores(raw, rest[k])
      {
        assert rest[k] == edits[k + 1];
      }
      AllRestoreEach(raw, rest);
    }
  }

  /**
   * Everything outside the edited ranges is kept: if every edit put back
   * the text it replaces, splicing would give the original text back.
   */
  lemma {:induction false} SpliceRestoring(raw: string, from: nat, edits: seq<Edit>)
    requires Fits(raw, from, edits) && AllRestore(raw, edits)
    ensures Splice(raw, from, edits) == raw[from..]
    decreases |edits|
  {
    if edits != [] {
      var e := edits[0];
      SpliceRestoring(raw, e.end, edits[1..]);
      assert Splice(raw, from, edits) == raw[from..e.start] + raw[e.start..e.end] + raw[e.end..];
      SliceSplit(raw, from, e.start, e.end);
      SliceSplit(raw, from, e.end, |raw|);
    }
  }

  /** Position `p` lies in none of the edited ranges. */
  predicate Outside(edits: seq<Edit>, p: nat)
  {
    forall k :: 0 <= k < |edits| ==> !(edits[k].start <= p < edits[k].end)
  }

  /**
   * The edited ranges are replaced whole: the result depends on `raw`
   * only through the characters outside them.
   */
  lemma {:induction false} SpliceIgnoresEditedRanges(raw: string, raw': string, from: nat, edits: seq<Edit>)
    requires Fits(raw, from, edits) && |raw'| == |raw|
    requires forall p :: from <= p < |raw| && Outside(edits, p) ==> raw[p] == raw'[p]
    ensures Fits(raw', from, edits)
    ensures Splice(raw, from, edits) == Splice(raw', from, edits)
    decreases |edits|
  {
    FitsBounds(raw, from, edits);
    if edits == [] {
      assert forall p :: from <= p < |raw| ==> Outside(edits, p);
      assert raw[from..] == raw'[from..];
    } else {
      var e := edits[0];
      FitsBounds(raw, e.end, edits[1..]);
      forall p | from <= p < e.start
        ensures raw[p] == raw'[p]
      {
        forall k | 0 <= k < |edits|
          ensures !(edits[k].start <= p < edits[k].end)
        {
          if k > 0 {
            assert edits[k] == edits[1..][k - 1];
          }
        }
      }
      assert raw[from..e.start] == raw'[from..e.start];
      forall p | e.end <= p < |raw| && Outside(edits[1..], p)
        ensures raw[p] == raw'[p]
      {
        forall k | 0 <= k < |edits|
          ensures !(edits[k].start <= p < edits[k].end)
        {
          if k > 0 {
            assert edits[k] == edits[1..][k - 1];
          }
        }
      }
      SpliceIgnoresEditedRanges(raw, raw', e.end, edits[1..]);
    }
  }
}
