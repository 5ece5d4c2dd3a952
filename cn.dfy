/**
 * `cn(...inputs)` (`src/utils/cn.ts`): the class-name joiner used by every
 * component. It walks its arguments, collecting strings, the joined result of
 * nested arrays and the keys of objects whose values are truthy, then joins the
 * non-empty pieces with single spaces.
 */
module Cn {
  import Js
  import Seqs

  /** `Boolean` as a filter over strings. */
  predicate NonEmpty(s: string) {
    s != ""
  }

  /** `parts.join(sep)` */
  function Join(parts: seq<string>, sep: string): string {
    if parts == [] then ""
    else if |parts| == 1 then parts[0]
    else parts[0] + sep + Join(parts[1..], sep)
  }

  /** The keys pushed by `for (const key in input) if (input[key]) ...`, in enumeration order. */
  function TruthyKeys(entries: seq<(string, Js.Value)>): (r: seq<string>)
    ensures |r| <= |entries|
    ensures forall k :: k in r ==> exists i :: 0 <= i < |entries| && entries[i].0 == k && Js.Truthy(entries[i].1)
    ensures forall i :: 0 <= i < |entries| && Js.Truthy(entries[i].1) ==> entries[i].0 in r
  {
    if entries == [] then []
    else
      var last := entries[|entries| - 1];
      var r := TruthyKeys(entries[..|entries| - 1]);
      assert forall k :: k in r ==> exists i :: 0 <= i < |entries| - 1 && entries[i].0 == k && Js.Truthy(entries[i].1);
      r + (if Js.Truthy(last.1) then [last.0] else [])
  }

  /** An entry `input[key]` that passes the `if`. */
  predicate TruthyEntry(e: (string, Js.Value)) {
    Js.Truthy(e.1)
  }

  /** The keys of `entries`, in order. */
  function Keys(entries: seq<(string, Js.Value)>): (r: seq<string>)
    ensures |r| == |entries| && forall i :: 0 <= i < |entries| ==> r[i] == entries[i].0
  {
    seq(|entries|, i requires 0 <= i < |entries| => entries[i].0)
  }

  /** The keys come out in enumeration order: they are the keys of the truthy entries, kept in sequence. */
  lemma {:induction false} TruthyKeysInOrder(entries: seq<(string, Js.Value)>)
    ensures TruthyKeys(entries) == Keys(Seqs.Filter(entries, TruthyEntry))
  {
    if entries != [] {
      var init, last := entries[..|entries| - 1], entries[|entries| - 1];
      assert entries == init + [last];
      TruthyKeysInOrder(init);
      Seqs.FilterSnoc(init, last, TruthyEntry);
      var f := Seqs.Filter(init, TruthyEntry);
      var tail := if TruthyEntry(last) then [last] else [];
      assert Keys(f + tail) == Keys(f) + Keys(tail);
    }
  }

  /**
   * What one argument pushes onto `classes`: nothing when it is falsy; a
   * string itself; an array the result of `cn` over its elements, when that is
   * non-empty; an object its truthy keys. Truthy numbers, `true`, errors and
   * blobs push nothing (errors and blobs have no enumerable keys).
   */
  function Contribution(v: Js.Value): seq<string>
    decreases v, 1
  {
    if !Js.Truthy(v) then []
    else
      match v
      case Str(s) => [s]
      case Arr(elems) =>
        var inner := ClassList(elems);
        if inner != "" then [inner] else []
      case Obj(entries) => TruthyKeys(entries)
      case _ => []
  }

  /** The contents of `classes` after the loop has visited `inputs`. */
  function Pieces(inputs: seq<Js.Value>): seq<string>
    decreases inputs, 0
  {
    if inputs == [] then []
    else Pieces(inputs[..|inputs| - 1]) + Contribution(inputs[|inputs| - 1])
  }

  /** The specification of `cn`: the collected pieces, empty ones dropped, joined with spaces. */
  function ClassList(inputs: seq<Js.Value>): string
    decreases inputs, 2
  {
    Join(Seqs.Filter(Pieces(inputs), NonEmpty), " ")
  }

  /** `cn(...inputs)`: the loop over the arguments, recursing into nested arrays. */
  method Cn(inputs: seq<Js.Value>) returns (r: string)
    ensures r == ClassList(inputs)
    decreases inputs
  {
    var classes: seq<string> := [];
    for i := 0 to |inputs|
      invariant classes == Pieces(inputs[..i])
    {
      var input := inputs[i];
      assert inputs[..i + 1][..i] == inputs[..i];
      if !Js.Truthy(input) {
        continue;
      }
      if input.Str? {
        classes := classes + [input.s];
      } else if input.Arr? {
        var inner := Cn(input.elems);
        if inner != "" {
          classes := classes + [inner];
        }
      } else if input.Obj? {
        var entries := input.entries;
        ghost var before := classes;
        for k := 0 to |entries|
          invariant classes == before + TruthyKeys(entries[..k])
        {
          assert entries[..k + 1][..k] == entries[..k];
          if Js.Truthy(entries[k].1) {
            classes := classes + [entries[k].0];
          }
        }
        assert entries[..|entries|] == entries;
      }
    }
    assert inputs[..|inputs|] == inputs;
    r := Join(Seqs.Filter(classes, NonEmpty), " ");
  }

  // ---------------------------------------------------------------------------
  // Properties

  /** The pieces of consecutive runs of arguments are collected one after the other. */
  lemma {:induction false} PiecesAppend(a: seq<Js.Value>, b: seq<Js.Value>)
    ensures Pieces(a + b) == Pieces(a) + Pieces(b)
    decreases |b|
  {
    if b == [] {
      assert a + b == a;
    } else {
      var b' := b[..|b| - 1];
      assert (a + b)[..|a + b| - 1] == a + b';
      assert (a + b)[|a + b| - 1] == b[|b| - 1];
      PiecesAppend(a, b');
    }
  }

  /** The pieces around a falsy argument are collected as if it were absent. */
  lemma PiecesSkipFalsy(a: seq<Js.Value>, x: Js.Value, b: seq<Js.Value>)
    requires !Js.Truthy(x)
    ensures Pieces(a + [x] + b) == Pieces(a + b)
  {
    PiecesAppend(a + [x], b);
    PiecesAppend(a, [x]);
    PiecesAppend(a, b);
    assert [x][..0] == [];
  }

  /** A falsy argument (null, undefined, false, 0, '') can be removed without changing the result. */
  lemma FalsyIgnored(inputs: seq<Js.Value>, i: nat)
    requires i < |inputs| && !Js.Truthy(inputs[i])
    ensures ClassList(inputs[..i] + inputs[i + 1..]) == ClassList(inputs)
  {
    assert inputs == inputs[..i] + [inputs[i]] + inputs[i + 1..];
    PiecesSkipFalsy(inputs[..i], inputs[i], inputs[i + 1..]);
  }

  /** Joining pieces that are all non-empty gives "" exactly when there are none. */
  lemma {:induction false} JoinEmptyIff(parts: seq<string>, sep: string)
    requires forall p :: p in parts ==> p != ""
    ensures Join(parts, sep) == "" <==> parts == []
  {
    if |parts| > 1 {
      assert parts[0] in parts;
      assert |Join(parts, sep)| >= |parts[0]|;
    } else if |parts| == 1 {
      assert parts[0] in parts;
    }
  }

  /** `cn` gives '' exactly when no argument contributes a non-empty piece. */
  lemma EmptyIffNothingContributes(inputs: seq<Js.Value>)
    ensures ClassList(inputs) != "" <==> exists p :: p in Pieces(inputs) && p != ""
  {
    var pieces := Pieces(inputs);
    var parts := Seqs.Filter(pieces, NonEmpty);
    assert ClassList(inputs) == Join(parts, " ");
    Seqs.FilterMembership(pieces, NonEmpty);
    JoinEmptyIff(parts, " ");
    if parts == [] {
      forall p | p in pieces ensures p == "" {
        assert p in parts <==> p != "";
      }
      assert ClassList(inputs) == "";
    } else {
      assert parts[0] in pieces && parts[0] != "";
      assert Join(parts, " ") != "";
      assert ClassList(inputs) != "";
      assert exists p :: p in Pieces(inputs) && p != "";
    }
  }

  /** Every non-empty string argument is one of the space-separated pieces, unchanged. */
  lemma StringInputKept(inputs: seq<Js.Value>, i: nat)
    requires i < |inputs| && inputs[i].Str? && inputs[i].s != ""
    ensures inputs[i].s in Seqs.Filter(Pieces(inputs), NonEmpty)
  {
    assert inputs == inputs[..i] + [inputs[i]] + inputs[i + 1..];
    PiecesAppend(inputs[..i] + [inputs[i]], inputs[i + 1..]);
    PiecesAppend(inputs[..i], [inputs[i]]);
    assert Pieces([inputs[i]]) == Pieces([]) + Contribution(inputs[i]);
    Seqs.FilterKeepsMatches(Pieces(inputs), NonEmpty, inputs[i].s);
  }

  /** Arguments that are all non-empty strings are joined with single spaces, in order. */
  lemma {:induction false} StringsJoined(ss: seq<string>)
    requires forall i :: 0 <= i < |ss| ==> ss[i] != ""
    ensures ClassList(seq(|ss|, i requires 0 <= i < |ss| => Js.Str(ss[i]))) == Join(ss, " ")
  {
    var inputs := seq(|ss|, i requires 0 <= i < |ss| => Js.Str(ss[i]));
    StringPieces(ss);
    Seqs.FilterAll(ss, NonEmpty);
  }

  /** The pieces of a run of non-empty string arguments are the strings themselves. */
  lemma {:induction false} StringPieces(ss: seq<string>)
    requires forall i :: 0 <= i < |ss| ==> ss[i] != ""
    ensures Pieces(seq(|ss|, i requires 0 <= i < |ss| => Js.Str(ss[i]))) == ss
  {
    var inputs := seq(|ss|, i requires 0 <= i < |ss| => Js.Str(ss[i]));
    if ss != [] {
      var ss' := ss[..|ss| - 1];
      assert inputs[..|inputs| - 1] == seq(|ss'|, i requires 0 <= i < |ss'| => Js.Str(ss'[i]));
      StringPieces(ss');
      assert ss == ss' + [ss[|ss| - 1]];
    }
  }

  /** A nested array gives the same classes as its elements passed directly. */
  lemma NestedArrayFlattens(xs: seq<Js.Value>)
    ensures ClassList([Js.Arr(xs)]) == ClassList(xs)
  {
    assert Pieces([Js.Arr(xs)]) == Pieces([]) + Contribution(Js.Arr(xs));
  }

  /** An object alone gives its truthy keys, non-empty ones only, joined with spaces. */
  lemma ObjectGivesTruthyKeys(entries: seq<(string, Js.Value)>)
    ensures ClassList([Js.Obj(entries)]) == Join(Seqs.Filter(TruthyKeys(entries), NonEmpty), " ")
  {
    var v := Js.Obj(entries);
    assert [v][..0] == [];
    assert Contribution(v) == TruthyKeys(entries);
    assert Pieces([v]) == [] + TruthyKeys(entries) == TruthyKeys(entries);
  }

  /** Truthy numbers, `true`, errors and blobs contribute nothing. */
  lemma OtherValuesIgnored(v: Js.Value)
    requires v.Num? || v.Bool? || v.ErrorObj? || v.BlobObj?
    ensures Contribution(v) == []
    ensures ClassList([v]) == ""
  {
    assert Pieces([v]) == Pieces([]) + Contribution(v);
  }
}
