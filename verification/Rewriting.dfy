/**
 Rewriting a source text by splicing placeholders over recorded spans.

 Splicing the spans one at a time from the last to the first is the same as replacing them all at
 once, and nothing is lost: the original text can be read back.
 */
module Rewriting {
  import opened Wrappers

  datatype Replacement = Replacement(start: nat, end: nat, text: string)

  /** Spans in order, not overlapping, within a text of length `n`, none before `from`. */
  predicate Ordered(rs: seq<Replacement>, from: nat, n: nat) {
    && from <= n
    && (forall k :: 0 <= k < |rs| ==> from <= rs[k].start < rs[k].end <= n)
    && (forall j, k :: 0 <= j < k < |rs| ==> rs[j].end <= rs[k].start)
  }

  /** Spans in any order, no two of them overlapping. */
  predicate Disjoint(rs: seq<Replacement>, n: nat) {
    && (forall k :: 0 <= k < |rs| ==> rs[k].start < rs[k].end <= n)
    && (forall j, k :: 0 <= j < k < |rs| ==> rs[j].end <= rs[k].start || rs[k].end <= rs[j].start)
  }

  function Splice(s: string, r: Replacement): string
    requires r.start <= r.end <= |s|
  {
    s[..r.start] + r.text + s[r.end..]
  }

  /** All replacements at once: the text between the spans is kept. `s` is read from `from` on. */
  function Simultaneous(s: string, rs: seq<Replacement>, from: nat): string
    requires Ordered(rs, from, |s|)
  {
    if rs == [] then s[from..]
    else s[from..rs[0].start] + rs[0].text + Simultaneous(s, rs[1..], rs[0].end)
  }

  lemma SpliceKeeps(s: string, r: Replacement, i: nat, j: nat)
    requires i <= j <= r.start <= r.end <= |s|
    ensures |Splice(s, r)| >= r.start && Splice(s, r)[i..j] == s[i..j]
  {
  }

  lemma OrderedInit(rs: seq<Replacement>, from: nat, n: nat)
    requires Ordered(rs, from, n) && rs != []
    ensures var last := rs[|rs|-1]; from <= last.start < last.end <= n && Ordered(rs[..|rs|-1], from, last.start)
  {
  }

  lemma OrderedWider(rs: seq<Replacement>, from: nat, n: nat, m: nat)
    requires Ordered(rs, from, n) && n <= m
    ensures Ordered(rs, from, m)
  {
  }

  /** Replacing the last span first leaves the others where they are. */
  lemma {:induction false} LastFirst(s: string, rs: seq<Replacement>, from: nat)
    requires Ordered(rs, from, |s|) && rs != []
    ensures var init, last := rs[..|rs|-1], rs[|rs|-1];
      && last.end <= |s| && Ordered(init, from, |Splice(s, last)|)
      && Simultaneous(s, rs, from) == Simultaneous(Splice(s, last), init, from)
  {
    var init, last := rs[..|rs|-1], rs[|rs|-1];
    var t := Splice(s, last);
    OrderedInit(rs, from, |s|);
    SpliceKeeps(s, last, from, last.start);
    OrderedWider(init, from, last.start, |t|);
    if |rs| == 1 {
      assert rs[1..] == [] && init == [];
      assert t[from..] == s[from..last.start] + last.text + s[last.end..];
    } else {
      LastFirst(s, rs[1..], rs[0].end);
      assert rs[1..][..|rs|-2] == init[1..] && rs[1..][|rs|-2] == last;
      SpliceKeeps(s, last, from, rs[0].start);
      hide Ordered, Splice;
    }
  }

  /** `sort((a, b) => b.start - a.start)`. */
  function SortDescending(rs: seq<Replacement>): seq<Replacement> {
    if rs == [] then [] else InsertDescending(SortDescending(rs[..|rs|-1]), rs[|rs|-1])
  }

  function InsertDescending(rs: seq<Replacement>, r: Replacement): (res: seq<Replacement>) {
    if rs == [] || rs[0].start < r.start then [r] + rs else [rs[0]] + InsertDescending(rs[1..], r)
  }

  predicate Descending(rs: seq<Replacement>, n: nat) {
    && (forall k :: 0 <= k < |rs| ==> rs[k].start < rs[k].end <= n)
    && (forall j, k :: 0 <= j < k < |rs| ==> rs[k].end <= rs[j].start)
  }

  predicate Apart(r: Replacement, q: Replacement) { r.end <= q.start || q.end <= r.start }

  lemma {:induction false} InsertMembers(rs: seq<Replacement>, r: Replacement)
    ensures multiset(InsertDescending(rs, r)) == multiset(rs) + multiset{r}
    ensures forall q :: q in InsertDescending(rs, r) ==> q == r || q in rs
  {
    if rs != [] && rs[0].start >= r.start {
      InsertMembers(rs[1..], r);
      assert rs == [rs[0]] + rs[1..];
    }
  }

  lemma {:induction false} InsertIsDescending(rs: seq<Replacement>, r: Replacement, n: nat)
    requires Descending(rs, n) && r.start < r.end <= n
    requires forall k :: 0 <= k < |rs| ==> Apart(rs[k], r)
    ensures Descending(InsertDescending(rs, r), n)
  {
    if rs == [] {
    } else if rs[0].start < r.start {
      assert Apart(rs[0], r);
    } else {
      var rest := InsertDescending(rs[1..], r);
      InsertIsDescending(rs[1..], r, n);
      InsertMembers(rs[1..], r);
      assert Apart(rs[0], r);
      forall k | 0 <= k < |rest| ensures rest[k].end <= rs[0].start {
        assert rest[k] in rest;
      }
    }
  }

  lemma {:induction false} SortIsDescending(rs: seq<Replacement>, n: nat)
    requires Disjoint(rs, n)
    ensures Descending(SortDescending(rs), n) && multiset(SortDescending(rs)) == multiset(rs)
  {
    if rs != [] {
      var init, last := rs[..|rs|-1], rs[|rs|-1];
      SortIsDescending(init, n);
      var sorted := SortDescending(init);
      forall k | 0 <= k < |sorted| ensures Apart(sorted[k], last) {
        assert sorted[k] in multiset(init);
        assert sorted[k] in init;
      }
      InsertIsDescending(sorted, last, n);
      InsertMembers(sorted, last);
      LastCounted(rs);
    }
  }

  function Reverse(rs: seq<Replacement>): (r: seq<Replacement>)
    ensures |r| == |rs| && forall k :: 0 <= k < |rs| ==> r[k] == rs[|rs|-1-k]
  {
    seq(|rs|, k requires 0 <= k < |rs| => rs[|rs|-1-k])
  }

  /** The recorded replacements, in the order of the text. */
  function InOrder(rs: seq<Replacement>): seq<Replacement> { Reverse(SortDescending(rs)) }

  lemma InOrderOk(rs: seq<Replacement>, n: nat)
    requires Disjoint(rs, n)
    ensures Ordered(InOrder(rs), 0, n)
  {
    SortIsDescending(rs, n);
  }

  /** The rewriting loop of the extractor. */
  method ApplyReplacements(source: string, rs: seq<Replacement>) returns (text: string)
    requires Disjoint(rs, |source|)
    ensures Ordered(InOrder(rs), 0, |source|)
    ensures text == Simultaneous(source, InOrder(rs), 0)
  {
    InOrderOk(rs, |source|);
    var sorted := SortDescending(rs);
    ghost var all := InOrder(rs);
    text := source;
    assert all[..|sorted|] == all;
    var i := 0;
    while i < |sorted|
      invariant 0 <= i <= |sorted| && Ordered(all[..|sorted|-i], 0, |text|)
      invariant Simultaneous(text, all[..|sorted|-i], 0) == Simultaneous(source, all, 0)
    {
      ghost var rest := all[..|sorted|-i];
      assert rest[|rest|-1] == sorted[i];
      LastFirst(text, rest, 0);
      assert rest[..|rest|-1] == all[..|sorted|-i-1];
      text := Splice(text, sorted[i]);
      i := i + 1;
    }
    assert all[..0] == [];
  }

  // ---------------------------------------------------------------------------------------
  // Reading the original back

  /** Where the placeholders ended up, with the original text of their spans. */
  function Undo(s: string, rs: seq<Replacement>, from: nat, at: nat): seq<Replacement>
    requires Ordered(rs, from, |s|)
  {
    if rs == [] then []
    else
      var start := at + (rs[0].start - from);
      [Replacement(start, start + |rs[0].text|, s[rs[0].start..rs[0].end])] + Undo(s, rs[1..], rs[0].end, start + |rs[0].text|)
  }

  lemma {:induction false} UndoOrdered(s: string, rs: seq<Replacement>, from: nat, at: nat)
    requires Ordered(rs, from, |s|) && forall k :: 0 <= k < |rs| ==> rs[k].text != []
    ensures Ordered(Undo(s, rs, from, at), at, at + |Simultaneous(s, rs, from)|)
  {
    if rs != [] {
      var next := at + (rs[0].start - from) + |rs[0].text|;
      UndoOrdered(s, rs[1..], rs[0].end, next);
    }
  }

  lemma SimultaneousStep(s: string, rs: seq<Replacement>, from: nat)
    requires Ordered(rs, from, |s|) && rs != []
    ensures from <= rs[0].start < rs[0].end <= |s| && Ordered(rs[1..], rs[0].end, |s|)
    ensures Simultaneous(s, rs, from) == s[from..rs[0].start] + rs[0].text + Simultaneous(s, rs[1..], rs[0].end)
  {
  }

  lemma UndoStep(s: string, rs: seq<Replacement>, from: nat, at: nat)
    requires Ordered(rs, from, |s|) && rs != []
    ensures var undo, start := Undo(s, rs, from, at), at + (rs[0].start - from);
      && undo != [] && undo[0] == Replacement(start, start + |rs[0].text|, s[rs[0].start..rs[0].end])
      && undo[1..] == Undo(s, rs[1..], rs[0].end, start + |rs[0].text|)
  {
  }

  lemma Parts(text: string, at: nat, kept: string, placeholder: string, tail: string)
    requires at <= |text| && text[at..] == kept + placeholder + tail
    ensures at + |kept| + |placeholder| <= |text| && text[at..at + |kept|] == kept
    ensures text[at + |kept| + |placeholder|..] == tail
  {
    var rest := text[at..];
    assert rest[..|kept|] == kept && rest[|kept| + |placeholder|..] == tail;
  }

  lemma SplitAt(s: string, i: nat, j: nat, k: nat)
    requires i <= j <= k <= |s|
    ensures s[i..] == s[i..j] + s[j..k] + s[k..]
  {
  }

  /** Putting the original spans back over the placeholders gives the original text. */
  lemma {:induction false} RoundTrip(s: string, rs: seq<Replacement>, from: nat, text: string, at: nat)
    requires Ordered(rs, from, |s|) && forall k :: 0 <= k < |rs| ==> rs[k].text != []
    requires at <= |text| && text[at..] == Simultaneous(s, rs, from)
    ensures Ordered(Undo(s, rs, from, at), at, |text|)
    ensures Simultaneous(text, Undo(s, rs, from, at), at) == s[from..]
  {
    UndoOrdered(s, rs, from, at);
    assert |text| == at + |Simultaneous(s, rs, from)|;
    if rs != [] {
      hide *;
      SimultaneousStep(s, rs, from);
      var kept, placeholder := s[from..rs[0].start], rs[0].text;
      Parts(text, at, kept, placeholder, Simultaneous(s, rs[1..], rs[0].end));
      RoundTrip(s, rs[1..], rs[0].end, text, at + |kept| + |placeholder|);
      PutBack(s, rs, from, text, at);
    }
  }

  /** In the rewritten text, each replacement's text stands where its span was. */
  lemma {:induction false} TextsInPlace(s: string, rs: seq<Replacement>, from: nat, text: string, at: nat, k: nat)
    requires Ordered(rs, from, |s|) && k < |rs| && at <= |text| && text[at..] == Simultaneous(s, rs, from)
    ensures |Undo(s, rs, from, at)| == |rs|
    ensures var u := Undo(s, rs, from, at)[k]; u.start <= u.end <= |text| && text[u.start..u.end] == rs[k].text
  {
    SimultaneousStep(s, rs, from);
    UndoStep(s, rs, from, at);
    UndoLength(s, rs, from, at);
    var kept, placeholder, tail := s[from..rs[0].start], rs[0].text, Simultaneous(s, rs[1..], rs[0].end);
    Parts(text, at, kept, placeholder, tail);
    hide Simultaneous, Undo, Ordered;
    if k == 0 {
      assert text[at..][|kept|..|kept| + |placeholder|] == placeholder;
    } else {
      TextsInPlace(s, rs[1..], rs[0].end, text, at + |kept| + |placeholder|, k - 1);
    }
  }

  lemma {:induction false} UndoLength(s: string, rs: seq<Replacement>, from: nat, at: nat)
    requires Ordered(rs, from, |s|)
    ensures |Undo(s, rs, from, at)| == |rs|
  {
    if rs != [] {
      UndoStep(s, rs, from, at);
      UndoLength(s, rs[1..], rs[0].end, at + (rs[0].start - from) + |rs[0].text|);
    }
  }

  lemma PutBack(s: string, rs: seq<Replacement>, from: nat, text: string, at: nat)
    requires Ordered(rs, from, |s|) && rs != []
    requires var next := at + (rs[0].start - from) + |rs[0].text|;
      && next <= |text| && text[at..at + (rs[0].start - from)] == s[from..rs[0].start]
      && Ordered(Undo(s, rs, from, at), at, |text|)
      && Ordered(rs[1..], rs[0].end, |s|) && Ordered(Undo(s, rs[1..], rs[0].end, next), next, |text|)
      && Simultaneous(text, Undo(s, rs[1..], rs[0].end, next), next) == s[rs[0].end..]
    ensures Simultaneous(text, Undo(s, rs, from, at), at) == s[from..]
  {
    UndoStep(s, rs, from, at);
    var undo := Undo(s, rs, from, at);
    SimultaneousStep(text, undo, at);
    assert from <= rs[0].start <= rs[0].end <= |s|;
    hide Simultaneous, Undo, Ordered;
    SplitAt(s, from, rs[0].start, rs[0].end);
  }
}
