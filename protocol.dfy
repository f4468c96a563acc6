/**
 The camera's `key=value` text protocol: every CGI status page answers with
 lines of `key=value`, which the integration folds into one dictionary
 (`NipcaCameraDevice._nipca`).
 */
module Protocol {
  import opened Text

  /**
   What one response line contributes: nothing when it is empty or, once
   stripped, holds no `=`; otherwise the lower-cased text before the first `=`
   as key and everything after that `=` as value.
   */
  function ParseLine(l: string): Option<(string, string)>
  {
    if l != [] && '=' in Strip(l) then
      var kv := SplitFirst(Strip(l));
      Some((Lower(kv.0), kv.1))
    else None
  }

  /**
   A line contributes an entry exactly when it is non-empty and its stripped
   text holds `=`; the entry's key is the lower-cased text before the first
   `=` and its value all the text after it.
   */
  lemma ParseLineShape(l: string)
    ensures ParseLine(l).Some? <==> l != [] && '=' in Strip(l)
    ensures ParseLine(l).Some? ==>
      exists k :: '=' !in k && Strip(l) == k + "=" + ParseLine(l).value.1 && ParseLine(l).value.0 == Lower(k)
  {
    if ParseLine(l).Some? {
      var kv := SplitFirst(Strip(l));
      assert '=' !in kv.0 && Strip(l) == kv.0 + "=" + kv.1;
    }
  }

  /** A line whose stripped text is `k=v`, with no `=` in `k`, contributes the entry `lower(k): v`. */
  lemma ParseLineOf(l: string, k: string, v: string)
    requires Strip(l) == k + "=" + v && '=' !in k
    ensures ParseLine(l) == Some((Lower(k), v))
  {
    SplitFirstJoin(k, v);
  }

  /** What each line contributes, in order. */
  function Entries(lines: seq<string>): (es: seq<Option<(string, string)>>)
    ensures |es| == |lines|
    ensures forall i :: 0 <= i < |lines| ==> es[i] == ParseLine(lines[i])
  {
    seq(|lines|, i requires 0 <= i < |lines| => ParseLine(lines[i]))
  }

  lemma EntriesAppend(a: seq<string>, b: seq<string>)
    ensures Entries(a + b) == Entries(a) + Entries(b)
  {
    assert forall i :: 0 <= i < |a| ==> (a + b)[i] == a[i];
    assert forall i :: 0 <= i < |b| ==> (a + b)[|a| + i] == b[i];
  }

  /** The dictionary a run of entries builds, one at a time, a later key overwriting an earlier one. */
  function Collect(es: seq<Option<(string, string)>>): map<string, string>
  {
    if es == [] then map[]
    else
      var before := Collect(es[..|es| - 1]);
      match es[|es| - 1]
      case None => before
      case Some(kv) => before[kv.0 := kv.1]
  }

  /** The dictionary `_nipca` returns for the lines of a response. */
  function ParseSpec(lines: seq<string>): map<string, string>
  {
    Collect(Entries(lines))
  }

  /** Entry `i` has key `k`. */
  predicate Yields(es: seq<Option<(string, string)>>, i: int, k: string)
  {
    0 <= i < |es| && es[i].Some? && es[i].value.0 == k
  }

  /** Entry `i` is the last entry with key `k`. */
  predicate LastFor(es: seq<Option<(string, string)>>, i: int, k: string)
  {
    Yields(es, i, k) && forall j :: i < j < |es| ==> !Yields(es, j, k)
  }

  lemma {:induction false} CollectLastWins(es: seq<Option<(string, string)>>, i: nat, k: string)
    requires LastFor(es, i, k)
    ensures k in Collect(es) && Collect(es)[k] == es[i].value.1
  {
    var n := |es| - 1;
    var init := es[..n];
    if i < n {
      assert !Yields(es, n, k);
      assert LastFor(init, i, k) by {
        forall j | i < j < |init| ensures !Yields(init, j, k) {
          assert !Yields(es, j, k);
        }
      }
      CollectLastWins(init, i, k);
    }
  }

  lemma {:induction false} CollectKeySource(es: seq<Option<(string, string)>>, k: string) returns (i: nat)
    requires k in Collect(es)
    ensures LastFor(es, i, k) && Collect(es)[k] == es[i].value.1
  {
    var n := |es| - 1;
    var init := es[..n];
    if Yields(es, n, k) {
      i := n;
    } else {
      i := CollectKeySource(init, k);
      assert init[i] == es[i];
      forall j | i < j < |es| ensures !Yields(es, j, k) {
        if j < n {
          assert init[j] == es[j];
          assert !Yields(init, j, k);
        }
      }
    }
  }

  /** The last entry at or after `i` with key `k`. */
  lemma {:induction false} LastYield(es: seq<Option<(string, string)>>, i: nat, k: string) returns (last: nat)
    requires Yields(es, i, k)
    ensures i <= last && LastFor(es, last, k)
    decreases |es| - i
  {
    if j :| i < j < |es| && Yields(es, j, k) {
      last := LastYield(es, j, k);
    } else {
      last := i;
    }
  }

  lemma {:induction false} CollectSkips(before: seq<Option<(string, string)>>, after: seq<Option<(string, string)>>)
    ensures Collect(before + [None] + after) == Collect(before + after)
  {
    if after == [] {
      assert (before + [None])[..|before|] == before;
      assert before + [None] + after == before + [None];
      assert before + after == before;
    } else {
      var a' := after[..|after| - 1];
      assert (before + [None] + after)[..|before + [None] + after| - 1] == before + [None] + a';
      assert (before + after)[..|before + after| - 1] == before + a';
      CollectSkips(before, a');
    }
  }

  /** Last write wins: the value stored under `k` is that of the last line with key `k`. */
  lemma ParseLastWins(lines: seq<string>, i: nat, k: string)
    requires LastFor(Entries(lines), i, k)
    ensures k in ParseSpec(lines)
    ensures ParseSpec(lines)[k] == ParseLine(lines[i]).value.1
  {
    CollectLastWins(Entries(lines), i, k);
  }

  /** Every stored key comes from a line, and its value is that of the last line with that key. */
  lemma ParseKeySource(lines: seq<string>, k: string)
    requires k in ParseSpec(lines)
    ensures exists i :: LastFor(Entries(lines), i, k) && ParseSpec(lines)[k] == ParseLine(lines[i]).value.1
  {
    var i := CollectKeySource(Entries(lines), k);
    assert LastFor(Entries(lines), i, k) && ParseSpec(lines)[k] == ParseLine(lines[i]).value.1;
  }

  /** A key is stored exactly when some line contributes it. */
  lemma ParseKeys(lines: seq<string>, k: string)
    ensures k in ParseSpec(lines) <==> exists i :: Yields(Entries(lines), i, k)
  {
    var es := Entries(lines);
    if k in ParseSpec(lines) {
      var i := CollectKeySource(es, k);
    }
    if i :| Yields(es, i, k) {
      var last := LastYield(es, i, k);
      CollectLastWins(es, last, k);
    }
  }

  /** No stored key holds `=`: a key is the lower-cased text before the first `=` of its line. */
  lemma ParseKeysNoEquals(lines: seq<string>, k: string)
    requires k in ParseSpec(lines)
    ensures '=' !in k
  {
    var i := CollectKeySource(Entries(lines), k);
    var entry := ParseLine(lines[i]);
    assert entry.Some? && entry.value.0 == k;
    ParseLineShape(lines[i]);
    var k0 :| '=' !in k0 && Strip(lines[i]) == k0 + "=" + entry.value.1 && entry.value.0 == Lower(k0);
    LowerKeepsEquals(k0);
  }

  /** A line that contributes nothing (empty, or no `=` once stripped) can be dropped from anywhere in the response. */
  lemma ParseSkips(before: seq<string>, l: string, after: seq<string>)
    requires l == [] || '=' !in Strip(l)
    ensures ParseSpec(before + [l] + after) == ParseSpec(before + after)
  {
    EntriesAppend(before + [l], after);
    EntriesAppend(before, [l]);
    EntriesAppend(before, after);
    assert Entries([l]) == [None];
    CollectSkips(Entries(before), Entries(after));
  }

  /** One more line updates the dictionary with that line's entry, if it has one. */
  lemma ParseStep(lines: seq<string>, i: nat)
    requires i < |lines|
    ensures ParseSpec(lines[..i + 1]) == match ParseLine(lines[i])
                                        case None => ParseSpec(lines[..i])
                                        case Some(kv) => ParseSpec(lines[..i])[kv.0 := kv.1]
  {
    assert lines[..i + 1] == lines[..i] + [lines[i]];
    EntriesAppend(lines[..i], [lines[i]]);
    var es := Entries(lines[..i + 1]);
    assert es[..i] == Entries(lines[..i]);
  }

  /**
   The parsing loop of `_nipca`, run on the lines of an already fetched
   response: it yields the dictionary ParseSpec describes.
   */
  method ParseResponse(lines: seq<string>) returns (result: map<string, string>)
    ensures result == ParseSpec(lines)
  {
    result := map[];
    for i := 0 to |lines|
      invariant result == ParseSpec(lines[..i])
    {
      ParseStep(lines, i);
      var l := lines[i];
      if l != [] {
        var s := Strip(l);
        if '=' in s {
          var kv := SplitFirst(s);
          result := result[Lower(kv.0) := kv.1];
        }
      }
    }
    assert lines[..|lines|] == lines;
  }
}
