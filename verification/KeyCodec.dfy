/**
  Query keys of src/key.rs and the `::` codec between segment lists and cache
  key strings, used by the hydration and filter code to rebuild keys.
 */
module KeyCodec {
  import opened Wrappers

  // ----- printing and parsing -----

  /** Segments joined with `::`. */
  function Join(segs: seq<string>): string {
    if segs == [] then ""
    else if |segs| == 1 then segs[0]
    else segs[0] + "::" + Join(segs[1..])
  }

  predicate StartsWithSeparator(s: string) {
    |s| >= 2 && s[0] == ':' && s[1] == ':'
  }

  /** `x` put in front of the first piece. */
  function Glue(x: string, r: seq<string>): (g: seq<string>)
    requires r != []
    ensures |g| == |r| && g[0] == x + r[0]
    ensures forall i :: 1 <= i < |r| ==> g[i] == r[i]
  {
    [x + r[0]] + r[1..]
  }

  /** `str::split("::")`: cut at the leftmost separator, again and again. */
  function Split(s: string): (r: seq<string>)
    ensures |r| >= 1
  {
    if StartsWithSeparator(s) then [""] + Split(s[2..])
    else if |s| < 2 then [s]
    else Glue([s[0]], Split(s[1..]))
  }

  predicate HasSeparator(s: string) {
    |s| >= 2 && (StartsWithSeparator(s) || HasSeparator(s[1..]))
  }

  predicate EndsInColon(s: string) {
    s != "" && s[|s| - 1] == ':'
  }

  /** The segment lists that survive printing and parsing. */
  ghost predicate Clean(segs: seq<string>) {
    && (forall i :: 0 <= i < |segs| ==> !HasSeparator(segs[i]))
    && (forall i :: 0 <= i < |segs| - 1 ==> !EndsInColon(segs[i]))
  }

  lemma JoinGlue(x: string, r: seq<string>)
    requires r != []
    ensures Join(Glue(x, r)) == x + Join(r)
  {
    var g := Glue(x, r);
    if |r| > 1 {
      assert g[1..] == r[1..];
      assert (x + r[0]) + "::" + Join(r[1..]) == x + (r[0] + "::" + Join(r[1..]));
    }
  }

  lemma GlueTwice(x: string, y: string, r: seq<string>)
    requires r != []
    ensures Glue(x, Glue(y, r)) == Glue(x + y, r)
  {
    assert x + (y + r[0]) == (x + y) + r[0];
  }

  lemma GlueNothing(r: seq<string>)
    requires r != []
    ensures Glue("", r) == r
  {
    assert "" + r[0] == r[0];
  }

  /** Parsing then printing is the identity on every string. */
  lemma {:induction false} JoinSplit(s: string)
    ensures Join(Split(s)) == s
  {
    if StartsWithSeparator(s) {
      JoinSplit(s[2..]);
      assert Split(s)[1..] == Split(s[2..]);
      assert s == "::" + s[2..];
    } else if |s| >= 2 {
      JoinSplit(s[1..]);
      JoinGlue([s[0]], Split(s[1..]));
      assert s == [s[0]] + s[1..];
    }
  }

  /** Text without a separator in it or across its end stays in one piece. */
  lemma {:induction false} SplitAfterText(a: string, rest: string)
    requires !HasSeparator(a) && !EndsInColon(a)
    ensures Split(a + rest) == Glue(a, Split(rest))
  {
    if a == "" {
      assert a + rest == rest;
      GlueNothing(Split(rest));
    } else {
      var tail := a[1..];
      var s := a + rest;
      assert s[1..] == tail + rest;
      SplitAfterText(tail, rest);
      assert !StartsWithSeparator(s) by {
        assert |a| >= 2 ==> s[1] == a[1];
      }
      if |s| >= 2 {
        GlueTwice([a[0]], tail, Split(rest));
        assert [a[0]] + tail == a;
      } else {
        assert rest == "" && s == a && a + "" == a;
        assert Glue(a, [""]) == [a];
      }
    }
  }

  lemma SplitAtSeparator(a: string, rest: string)
    requires !HasSeparator(a) && !EndsInColon(a)
    ensures Split(a + "::" + rest) == [a] + Split(rest)
  {
    var tail := "::" + rest;
    assert tail[2..] == rest;
    assert a + "::" + rest == a + tail;
    SplitAfterText(a, tail);
    assert a + "" == a;
  }

  lemma {:induction false} SplitPlain(a: string)
    requires !HasSeparator(a)
    ensures Split(a) == [a]
  {
    if |a| >= 2 {
      SplitPlain(a[1..]);
      assert [a[0]] + a[1..] == a;
    }
  }

  lemma {:induction false} SplitJoinClean(segs: seq<string>)
    requires segs != [] && Clean(segs)
    ensures Split(Join(segs)) == segs
  {
    if |segs| == 1 {
      SplitPlain(segs[0]);
    } else {
      CleanTail(segs);
      SplitJoinClean(segs[1..]);
      SplitAtSeparator(segs[0], Join(segs[1..]));
    }
  }

  lemma CleanTail(segs: seq<string>)
    requires segs != [] && Clean(segs)
    ensures Clean(segs[1..])
  {
    assert forall i :: 0 <= i < |segs[1..]| ==> segs[1..][i] == segs[i + 1];
  }

  /** What the first piece says about the string. */
  lemma {:induction false} FirstPiece(s: string)
    ensures Split(s)[0] == "" ==> s == "" || StartsWithSeparator(s)
    ensures Split(s)[0] != "" ==> s != "" && Split(s)[0][0] == s[0]
  {
    if !StartsWithSeparator(s) && |s| >= 2 { FirstPiece(s[1..]); }
  }

  /** One more character in front of a clean list, unless it completes a
      separator. */
  lemma GlueKeepsClean(s: string)
    requires |s| >= 2 && !StartsWithSeparator(s) && Clean(Split(s[1..]))
    ensures Clean(Glue([s[0]], Split(s[1..])))
  {
    var r := Split(s[1..]);
    var head := [s[0]] + r[0];
    FirstPiece(s[1..]);
    assert head[1..] == r[0];
    assert !HasSeparator(head);
    assert |r| > 1 ==> !EndsInColon(head);
  }

  /** Everything parsing produces is clean. */
  lemma {:induction false} SplitIsClean(s: string)
    ensures Clean(Split(s))
  {
    if StartsWithSeparator(s) {
      SplitIsClean(s[2..]);
      var r := Split(s[2..]);
      assert forall i :: 1 <= i < |Split(s)| ==> Split(s)[i] == r[i - 1];
    } else if |s| >= 2 {
      SplitIsClean(s[1..]);
      GlueKeepsClean(s);
    }
  }

  /** Printing then parsing gives the segments back exactly when no segment
      contains `::` and only the last may end in `:`. */
  lemma RoundTripIff(segs: seq<string>)
    requires segs != []
    ensures Split(Join(segs)) == segs <==> Clean(segs)
  {
    if Clean(segs) { SplitJoinClean(segs); }
    SplitIsClean(Join(segs));
  }

  /** So the two are a bijection between strings and clean lists. */
  lemma JoinIsInjectiveOnClean(a: seq<string>, b: seq<string>)
    requires a != [] && b != [] && Clean(a) && Clean(b) && Join(a) == Join(b)
    ensures a == b
  {
    SplitJoinClean(a);
    SplitJoinClean(b);
  }

  // ----- query keys -----

  datatype QueryKey = QueryKey(segments: seq<string>, cacheKey: string)
  {
    /** The pre-computed string is the joined segments. */
    ghost predicate Valid() { cacheKey == Join(segments) }

    predicate StartsWith(prefix: QueryKey) {
      |segments| >= |prefix.segments| && segments[..|prefix.segments|] == prefix.segments
    }
  }

  function New(segment: string): (k: QueryKey)
    ensures k.Valid()
  {
    QueryKey([segment], segment)
  }

  lemma {:induction false} JoinSnoc(segs: seq<string>, x: string)
    requires segs != []
    ensures Join(segs + [x]) == Join(segs) + "::" + x
  {
    if |segs| == 1 {
      assert (segs + [x])[1..] == [x];
    } else {
      assert (segs + [x])[1..] == segs[1..] + [x];
      JoinSnoc(segs[1..], x);
      assert segs[0] + "::" + (Join(segs[1..]) + "::" + x) == (segs[0] + "::" + Join(segs[1..])) + "::" + x;
    }
  }

  function Segment(k: QueryKey, name: string): QueryKey {
    QueryKey(k.segments + [name], k.cacheKey + "::" + name)
  }

  /** `QueryKey::with`: a `name=value` segment. */
  function With(k: QueryKey, name: string, value: string): QueryKey {
    Segment(k, name + "=" + value)
  }

  /** Both extensions keep the pre-computed string right; a key without
      segments cannot be extended by the public constructors. */
  lemma ExtendingKeepsValid(k: QueryKey, name: string, value: string)
    requires k.Valid() && k.segments != []
    ensures Segment(k, name).Valid() && With(k, name, value).Valid()
    ensures Segment(k, name).StartsWith(k) && With(k, name, value).StartsWith(k)
  {
    JoinSnoc(k.segments, name);
    JoinSnoc(k.segments, name + "=" + value);
  }

  /** A parameter is one more segment, `name=value`, behind a separator. */
  lemma WithAddsParameter(k: QueryKey, name: string, value: string)
    ensures With(k, name, value).segments == k.segments + [name + "=" + value]
    ensures With(k, name, value).cacheKey == k.cacheKey + "::" + name + "=" + value
    ensures With(New("users"), "id", "1").cacheKey == "users::id=1"
  {
    assert k.cacheKey + "::" + (name + "=" + value) == k.cacheKey + "::" + name + "=" + value;
    assert "users" + "::" + ("id" + "=" + "1") == "users::id=1";
  }

  /** The fold of `QueryKey::from_segments`. */
  function FromSegments(segs: seq<string>): (k: QueryKey)
    ensures k.Valid() && k.segments == segs
  {
    if segs == [] then QueryKey([], "")
    else if |segs| == 1 then assert segs == [segs[0]]; New(segs[0])
    else
      var n := |segs| - 1;
      assert segs == segs[..n] + [segs[n]];
      ExtendingKeepsValid(FromSegments(segs[..n]), segs[n], "");
      Segment(FromSegments(segs[..n]), segs[n])
  }

  /** The key rebuilt from a cache key string is stored under that string. */
  lemma SnapshotKeyIsFaithful(cacheKey: string)
    ensures FromSegments(Split(cacheKey)).cacheKey == cacheKey
  {
    JoinSplit(cacheKey);
  }

  /** `query_key_from_dehydrated`: the payload's segments when they reproduce
      its hash, else the hash as a single segment. */
  function KeyFromPayload(hash: string, segs: seq<string>): (k: QueryKey)
    ensures k.Valid() && k.cacheKey == hash
  {
    var k := FromSegments(segs);
    if k.cacheKey == hash then k else New(hash)
  }

  /** A key that was printed from clean segments comes back with the same
      segments from a payload carrying its split hash. */
  lemma PayloadRestoresSegmentsIff(segs: seq<string>)
    requires segs != []
    ensures KeyFromPayload(Join(segs), Split(Join(segs))) == FromSegments(segs) <==> Clean(segs)
  {
    JoinSplit(Join(segs));
    RoundTripIff(segs);
  }

  // ----- string prefixes against segment prefixes -----

  /** Same segments up to the pattern's last one, which is only a string
      prefix of the segment there. */
  ghost predicate LooselyExtends(segs: seq<string>, p: seq<string>) {
    p == [] ||
    (var n := |p| - 1;
     |segs| > n && segs[..n] == p[..n] && p[n] <= segs[n])
  }

  lemma {:induction false} LooseMeansStringPrefix(p: seq<string>, segs: seq<string>)
    requires LooselyExtends(segs, p)
    ensures Join(p) <= Join(segs)
  {
    if |p| == 1 {
      if |segs| > 1 { assert Join(segs) == segs[0] + ("::" + Join(segs[1..])); }
    } else if |p| > 1 {
      LooseTail(p, segs);
      LooseMeansStringPrefix(p[1..], segs[1..]);
    }
  }

  lemma {:induction false} SplitAfterPattern(p: seq<string>, rest: string)
    requires p != [] && Clean(p) && !EndsInColon(p[|p| - 1])
    ensures Split(Join(p) + rest) == p[..|p| - 1] + Glue(p[|p| - 1], Split(rest))
  {
    if |p| == 1 {
      SplitAfterText(p[0], rest);
    } else {
      var q := p[1..];
      CleanTail(p);
      SplitAfterPattern(q, rest);
      SplitOneMore(p[0], Join(q), rest, q[..|q| - 1] + Glue(p[|p| - 1], Split(rest)));
      InitOfTail(p, Glue(p[|p| - 1], Split(rest)));
    }
  }

  lemma SplitOneMore(a: string, key: string, rest: string, pieces: seq<string>)
    requires !HasSeparator(a) && !EndsInColon(a) && Split(key + rest) == pieces
    ensures Split(a + "::" + key + rest) == [a] + pieces
  {
    Regroup(a + "::", key, rest);
    SplitAtSeparator(a, key + rest);
  }

  lemma InitOfTail<T>(p: seq<T>, g: seq<T>)
    requires |p| > 1
    ensures [p[0]] + (p[1..][..|p| - 2] + g) == p[..|p| - 1] + g
  {
  }

  /** For a clean pattern not ending in `:`, string-prefix matching stales
      exactly the keys that agree on all but the last pattern segment and whose
      segment there has it as a string prefix. */
  lemma StringPrefixIff(p: seq<string>, key: string)
    requires Clean(p) && (p != [] ==> !EndsInColon(p[|p| - 1]))
    ensures Join(p) <= key <==> LooselyExtends(Split(key), p)
  {
    JoinSplit(key);
    if LooselyExtends(Split(key), p) { LooseMeansStringPrefix(p, Split(key)); }
    if p != [] && Join(p) <= key {
      var rest := key[|Join(p)|..];
      assert key == Join(p) + rest;
      SplitAfterPattern(p, rest);
      assert Split(key)[..|p| - 1] == p[..|p| - 1];
    }
  }

  /** A segment prefix is always a string prefix too. */
  lemma SegmentPrefixIsStringPrefix(p: seq<string>, key: string)
    requires p <= Split(key)
    ensures Join(p) <= key
  {
    JoinSplit(key);
    if p != [] {
      assert Split(key)[..|p| - 1] == p[..|p| - 1];
      LooseMeansStringPrefix(p, Split(key));
    }
  }

  lemma {:induction false} JoinAppend(p: seq<string>, more: seq<string>)
    requires p != [] && more != []
    ensures Join(p + more) == Join(p) + "::" + Join(more)
  {
    if |p| == 1 {
      assert (p + more)[1..] == more;
    } else {
      assert (p + more)[1..] == p[1..] + more;
      JoinAppend(p[1..], more);
      assert p[0] + "::" + (Join(p[1..]) + "::" + Join(more)) == (p[0] + "::" + Join(p[1..])) + "::" + Join(more);
    }
  }

  lemma {:induction false} ExtensionParses(p: seq<string>, more: seq<string>)
    requires p != [] && more != [] && Clean(p) && !EndsInColon(p[|p| - 1])
    ensures Split(Join(p + more)) == p + Split(Join(more))
  {
    if |p| == 1 {
      assert (p + more)[1..] == more;
      SplitAtSeparator(p[0], Join(more));
    } else {
      var q := p[1..];
      CleanTail(p);
      ExtensionParses(q, more);
      assert (p + more)[1..] == q + more;
      SplitAtSeparator(p[0], Join(q + more));
      ConsAppend(p, Split(Join(more)));
    }
  }

  lemma ConsAppend<T>(p: seq<T>, g: seq<T>)
    requires p != []
    ensures [p[0]] + (p[1..] + g) == p + g
  {
  }

  /** The filter, which only sees the parsed string, recognises every key built
      below a pattern exactly when the pattern is clean and does not end in
      `:`. */
  lemma FilterSeesExtensionsIff(p: seq<string>, more: seq<string>)
    requires p != [] && more != []
    ensures p <= Split(Join(p + more)) <==> Clean(p) && !EndsInColon(p[|p| - 1])
  {
    if Clean(p) && !EndsInColon(p[|p| - 1]) { ExtensionParses(p, more); }
    var parsed := Split(Join(p + more));
    if p <= parsed {
      SplitIsClean(Join(p + more));
      JoinSplit(Join(p + more));
      JoinAppend(p, more);
      assert |parsed| == |p| ==> parsed == p;
      assert forall i :: 0 <= i < |p| ==> p[i] == parsed[i];
    }
  }

  lemma LooseTail(p: seq<string>, segs: seq<string>)
    requires |p| > 1 && LooselyExtends(segs, p)
    ensures LooselyExtends(segs[1..], p[1..]) && segs[0] == p[0]
  {
    assert segs[1..][..|p| - 2] == segs[..|p| - 1][1..];
    assert p[1..][..|p| - 2] == p[..|p| - 1][1..];
    assert segs[0] == segs[..|p| - 1][0] == p[..|p| - 1][0] == p[0];
  }

  /** How much longer than the pattern a key that loosely extends it is. */
  lemma {:induction false} LooseLength(p: seq<string>, segs: seq<string>)
    requires p != [] && LooselyExtends(segs, p)
    ensures var n := |p| - 1;
      |Join(segs)| >= |Join(p)| + (|segs[n]| - |p[n]|) + (if |segs| > |p| then 2 else 0)
  {
    if |p| > 1 {
      LooseTail(p, segs);
      LooseLength(p[1..], segs[1..]);
    }
  }

  /** A key that loosely extends a pattern and is no longer than it is the
      pattern. */
  lemma LooseAndShort(p: seq<string>, segs: seq<string>)
    requires p != [] && LooselyExtends(segs, p) && |Join(segs)| <= |Join(p)|
    ensures segs == p
  {
    var n := |p| - 1;
    LooseLength(p, segs);
    assert segs[n] == p[n];
    assert segs == segs[..n] + [segs[n]] && p == p[..n] + [p[n]];
  }

  lemma EndsInColonThenColon(s: string)
    requires EndsInColon(s)
    ensures HasSeparator(s + ":")
  {
    if |s| > 1 {
      assert (s + ":")[1..] == s[1..] + ":";
      EndsInColonThenColon(s[1..]);
    }
  }

  /** String-prefix matching keeps to the pattern's branch exactly when the
      pattern is clean and does not end in `:`. */
  lemma PrefixStaysInBranchIff(p: seq<string>)
    requires p != []
    ensures (forall key: string :: Join(p) <= key ==> LooselyExtends(Split(key), p))
      <==> Clean(p) && !EndsInColon(p[|p| - 1])
  {
    if Clean(p) && !EndsInColon(p[|p| - 1]) {
      forall key: string | Join(p) <= key
        ensures LooselyExtends(Split(key), p)
      {
        StringPrefixIff(p, key);
      }
    } else if Clean(p) {
      var key := Join(p) + ":";
      ColonLeavesBranch(p);
      assert Join(p) <= key && !LooselyExtends(Split(key), p);
    } else {
      var key := Join(p);
      JoinSplit(key);
      SplitIsClean(key);
      if LooselyExtends(Split(key), p) { LooseAndShort(p, Split(key)); }
      assert Join(p) <= key && !LooselyExtends(Split(key), p);
    }
  }

  /** One more colon after a pattern ending in one completes a separator. */
  lemma ColonLeavesBranch(p: seq<string>)
    requires p != [] && EndsInColon(p[|p| - 1])
    ensures !LooselyExtends(Split(Join(p) + ":"), p)
  {
    var segs := Split(Join(p) + ":");
    JoinSplit(Join(p) + ":");
    SplitIsClean(Join(p) + ":");
    EndsInColonThenColon(p[|p| - 1]);
    if LooselyExtends(segs, p) { LastPiece(p, segs); }
  }

  /** The last piece of a key with one more character than the pattern it
      loosely extends. */
  lemma {:induction false} LastPiece(p: seq<string>, segs: seq<string>)
    requires p != [] && LooselyExtends(segs, p) && Join(segs) == Join(p) + ":"
    ensures segs[|p| - 1] == p[|p| - 1] + ":"
  {
    LooseLength(p, segs);
    if |p| > 1 {
      LooseTail(p, segs);
      DropHead(p[0] + "::", Join(segs[1..]), Join(p[1..]));
      LastPiece(p[1..], segs[1..]);
    }
  }

  lemma DropHead(head: string, a: string, b: string)
    requires head + a == head + b + ":"
    ensures a == b + ":"
  {
    assert a == (head + a)[|head|..] && b + ":" == (head + b + ":")[|head|..];
  }

  /** Whatever the pattern, string-prefix matching reaches keys that do not
      extend its segments: the filter selects strictly less. */
  lemma PrefixAlwaysOverreaches(p: seq<string>)
    requires p != []
    ensures Join(p) <= Join(p) + "0" && !(p <= Split(Join(p) + "0"))
  {
    JoinSplit(Join(p) + "0");
    PrefixLength(p, Split(Join(p) + "0"));
  }

  /** A proper extension is longer by at least a separator. */
  lemma PrefixLength(p: seq<string>, segs: seq<string>)
    requires p != []
    ensures p <= segs ==> segs == p || |Join(segs)| >= |Join(p)| + 2
  {
    if p <= segs && |segs| > |p| {
      JoinAppend(p, segs[|p|..]);
      assert p + segs[|p|..] == segs;
    }
  }

  /** Two such keys: a sibling, and one outside the branch of a pattern ending
      in `:`. */
  lemma StringPrefixOverreaches()
    ensures Join(["users", "id=1"]) <= Join(["users", "id=10"]) && !(["users", "id=1"] <= ["users", "id=10"])
    ensures Join(["a:"]) <= "a::b" && Split("a::b") == ["a", "b"] && !LooselyExtends(Split("a::b"), ["a:"])
  {
    assert Join(["users", "id=1"]) == "users::id=1";
    assert Join(["users", "id=10"]) == "users::id=10" == "users::id=1" + "0";
    SplitAtSeparator("a", "b");
    assert "a" + "::" + "b" == "a::b" == "a:" + ":b";
    assert !("a:" <= "a");
  }
}
