/**
 * The URL list: `load_urls` keeps, in file order, the stripped form of every
 * line that is not blank once stripped.
 */
module UrlList {
  import opened Text

  /** A loaded URL: not empty, and no whitespace at either end. */
  predicate IsUrl(u: string) {
    u != [] && IsStripped(u)
  }

  /** The list comprehension over the lines of the URL file. */
  function LoadUrls(lines: seq<string>): (urls: seq<string>)
    ensures |urls| <= |lines|
    ensures forall k :: 0 <= k < |urls| ==> IsUrl(urls[k])
  {
    if |lines| == 0 then []
    else
      var rest := LoadUrls(lines[1..]);
      var u := Strip(lines[0]);
      if u == [] then rest else [u] + rest
  }

  /** Loading distributes over concatenation, so URLs keep the relative
      order of the lines they came from. */
  lemma {:induction false} LoadUrlsAppend(a: seq<string>, b: seq<string>)
    ensures LoadUrls(a + b) == LoadUrls(a) + LoadUrls(b)
    decreases |a|
  {
    if |a| > 0 {
      assert (a + b)[1..] == a[1..] + b;
      LoadUrlsAppend(a[1..], b);
    } else {
      assert a + b == b;
    }
  }

  /** `idx` picks, in increasing order, exactly the lines of `lines` that are
      not blank once stripped, and `urls` holds those lines stripped. */
  ghost predicate Selects(lines: seq<string>, urls: seq<string>, idx: seq<int>) {
    && |idx| == |urls|
    && (forall k :: 0 <= k < |idx| ==> 0 <= idx[k] < |lines| && urls[k] == Strip(lines[idx[k]]))
    && Increasing(idx)
    && (forall i :: 0 <= i < |lines| ==> (i in idx <==> Strip(lines[i]) != []))
  }

  /** Exactly the non-blank lines are kept: there is an increasing choice of
      line indices, covering every line that is not blank once stripped and
      no other, whose stripped lines are the URLs in order. */
  lemma {:induction false} LoadUrlsSelects(lines: seq<string>) returns (idx: seq<int>)
    ensures |idx| == |LoadUrls(lines)|
    ensures forall k :: 0 <= k < |idx| ==> 0 <= idx[k] < |lines| && LoadUrls(lines)[k] == Strip(lines[idx[k]])
    ensures forall k, l :: 0 <= k < l < |idx| ==> idx[k] < idx[l]
    ensures forall i :: 0 <= i < |lines| ==> (i in idx <==> Strip(lines[i]) != [])
    decreases |lines|
  {
    if |lines| == 0 {
      idx := [];
    } else {
      var tail := LoadUrlsSelects(lines[1..]);
      idx := SelectsCons(lines, tail);
    }
  }

  /** One step of `LoadUrlsSelects`: the selection for the tail of the lines,
      shifted by one and preceded by the first line when that one is kept. */
  lemma SelectsCons(lines: seq<string>, tail: seq<int>) returns (idx: seq<int>)
    requires |lines| > 0
    requires Selects(lines[1..], LoadUrls(lines[1..]), tail)
    ensures Selects(lines, LoadUrls(lines), idx)
  {
    var shifted := SelectsShifted(lines, tail);
    if Strip(lines[0]) != [] {
      idx := SelectsKeepFirst(lines, shifted);
    } else {
      idx := shifted;
      assert LoadUrls(lines) == LoadUrls(lines[1..]);
    }
  }

  /** The selection for `lines[1..]`, as indices into `lines`. */
  lemma SelectsShifted(lines: seq<string>, tail: seq<int>) returns (shifted: seq<int>)
    requires |lines| > 0
    requires Selects(lines[1..], LoadUrls(lines[1..]), tail)
    ensures |shifted| == |LoadUrls(lines[1..])|
    ensures forall k :: 0 <= k < |shifted| ==> 0 < shifted[k] < |lines| && LoadUrls(lines[1..])[k] == Strip(lines[shifted[k]])
    ensures Increasing(shifted)
    ensures forall i :: 1 <= i < |lines| ==> (i in shifted <==> Strip(lines[i]) != [])
    ensures 0 !in shifted
  {
    var rest := LoadUrls(lines[1..]);
    shifted := Shift(tail);
    forall k | 0 <= k < |shifted|
      ensures 0 < shifted[k] < |lines| && rest[k] == Strip(lines[shifted[k]])
    {
      assert lines[1..][tail[k]] == lines[tail[k] + 1];
    }
    forall i | 1 <= i < |lines|
      ensures i in shifted <==> Strip(lines[i]) != []
    {
      assert lines[1..][i - 1] == lines[i];
    }
  }

  /** The first line is kept: its index goes in front of the shifted tail. */
  lemma SelectsKeepFirst(lines: seq<string>, shifted: seq<int>) returns (idx: seq<int>)
    requires |lines| > 0 && Strip(lines[0]) != []
    requires |shifted| == |LoadUrls(lines[1..])|
    requires forall k :: 0 <= k < |shifted| ==> 0 < shifted[k] < |lines| && LoadUrls(lines[1..])[k] == Strip(lines[shifted[k]])
    requires Increasing(shifted)
    requires forall i :: 1 <= i < |lines| ==> (i in shifted <==> Strip(lines[i]) != [])
    ensures Selects(lines, LoadUrls(lines), idx)
  {
    var rest := LoadUrls(lines[1..]);
    idx := Cons(shifted);
    var urls := LoadUrls(lines);
    assert urls == [Strip(lines[0])] + rest;
    forall k | 0 <= k < |idx|
      ensures 0 <= idx[k] < |lines| && urls[k] == Strip(lines[idx[k]])
    {
      if k > 0 {
        assert urls[k] == rest[k - 1];
      }
    }
  }

  ghost predicate Increasing(idx: seq<int>) {
    forall k, l :: 0 <= k < l < |idx| ==> idx[k] < idx[l]
  }

  /** Indices into a tail read as indices into the whole sequence. */
  lemma Shift(tail: seq<int>) returns (shifted: seq<int>)
    requires Increasing(tail)
    requires forall k :: 0 <= k < |tail| ==> 0 <= tail[k]
    ensures |shifted| == |tail|
    ensures forall k :: 0 <= k < |tail| ==> shifted[k] == tail[k] + 1
    ensures Increasing(shifted)
    ensures forall i :: i in shifted <==> i - 1 in tail
  {
    shifted := seq(|tail|, k requires 0 <= k < |tail| => tail[k] + 1);
    forall i
      ensures i in shifted <==> i - 1 in tail
    {
      if i - 1 in tail {
        var k :| 0 <= k < |tail| && tail[k] == i - 1;
        assert shifted[k] == i;
      }
    }
  }

  /** Index 0 put in front of positive increasing indices. */
  lemma Cons(shifted: seq<int>) returns (idx: seq<int>)
    requires Increasing(shifted)
    requires forall k :: 0 <= k < |shifted| ==> 0 < shifted[k]
    ensures idx == [0] + shifted
    ensures Increasing(idx)
    ensures forall i :: i in idx <==> i == 0 || i in shifted
  {
    idx := [0] + shifted;
    forall k, l | 0 <= k < l < |idx|
      ensures idx[k] < idx[l]
    {
      assert idx[l] == shifted[l - 1];
      if k > 0 {
        assert idx[k] == shifted[k - 1];
      }
    }
  }

  /** Loading an already-loaded list changes nothing. */
  lemma {:induction false} LoadUrlsIdempotent(lines: seq<string>)
    ensures LoadUrls(LoadUrls(lines)) == LoadUrls(lines)
    decreases |lines|
  {
    if |lines| > 0 {
      LoadUrlsIdempotent(lines[1..]);
      var rest := LoadUrls(lines[1..]);
      var u := Strip(lines[0]);
      if u != [] {
        assert ([u] + rest)[1..] == rest;
      }
    }
  }
}
