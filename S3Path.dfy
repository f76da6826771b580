/**
 * The S3 request-path splitter: a path such as "/bucket/key?acl" is split
 * into a container (bucket) name, an object id and a query string by a
 * four-state scanner that reads the path one character at a time.
 */
module S3Path {
  import opened Wrappers

  /** The scanner's states, in the order the scanner can reach them. */
  datatype LineState =
    | AwaitingFirstNonSlash
    | AwaitingContainerEnd
    | AwaitingObjectEnd
    | AwaitingQueryEnd

  /** The three members the scanner fills in. */
  datatype Parts = Parts(container: string, objectId: string, queries: string)

  const NoParts := Parts("", "", "")

  /** The scanner's whole state: where it is and what it has collected. */
  datatype Scan = Scan(state: LineState, parts: Parts)

  /** The effect of one character on the scanner (one iteration of its loop). */
  function Step(s: Scan, c: char): Scan
  {
    var p := s.parts;
    match s.state
    case AwaitingFirstNonSlash =>
      if c == '/' then s
      else Scan(AwaitingContainerEnd, p.(container := p.container + [c]))
    case AwaitingContainerEnd =>
      if c == '/' then Scan(AwaitingObjectEnd, p)
      else if c == '?' then Scan(AwaitingQueryEnd, p)
      else Scan(AwaitingContainerEnd, p.(container := p.container + [c]))
    case AwaitingObjectEnd =>
      if c == '/' then s
      else if p.objectId == [] && c == '?' then Scan(AwaitingQueryEnd, p)
      else Scan(AwaitingObjectEnd, p.(objectId := p.objectId + [c]))
    case AwaitingQueryEnd =>
      if c == '/' then s
      else Scan(AwaitingQueryEnd, p.(queries := p.queries + [c]))
  }

  /** The scanner's state after it has read all of `s`, starting in `start`. */
  function Run(start: Scan, s: string): Scan
    decreases |s|
  {
    if s == [] then start else Run(Step(start, s[0]), s[1..])
  }

  // ---------------------------------------------------------------------------
  // A declarative description of the split, independent of the scanner.
  // ---------------------------------------------------------------------------

  /** The characters of `s` other than '/', in order. */
  function NonSlash(s: string): (r: string)
    ensures |r| <= |s|
    ensures forall k :: 0 <= k < |r| ==> r[k] != '/'
  {
    if s == [] then []
    else (if s[0] == '/' then [] else [s[0]]) + NonSlash(s[1..])
  }

  /** `s` without its leading run of '/'. */
  function DropLeadingSlashes(s: string): (r: string)
    ensures |r| <= |s|
    ensures r != [] ==> r[0] != '/'
  {
    if s != [] && s[0] == '/' then DropLeadingSlashes(s[1..]) else s
  }

  /** What DropLeadingSlashes drops is a run of '/', and what it keeps is the rest of `s`. */
  lemma {:induction false} DroppedAreSlashes(s: string)
    ensures DropLeadingSlashes(s) == s[|s| - |DropLeadingSlashes(s)|..]
    ensures forall k :: 0 <= k < |s| - |DropLeadingSlashes(s)| ==> s[k] == '/'
    decreases |s|
  {
    if s != [] && s[0] == '/' {
      DroppedAreSlashes(s[1..]);
      assert s[1..][|s| - 1 - |DropLeadingSlashes(s)|..] == s[|s| - |DropLeadingSlashes(s)|..];
    }
  }

  /** The length of the longest prefix of `s` holding neither '/' nor '?'. */
  function NameLength(s: string): (n: nat)
    ensures n <= |s|
    ensures forall k :: 0 <= k < n ==> s[k] != '/' && s[k] != '?'
    ensures n < |s| ==> s[n] == '/' || s[n] == '?'
  {
    if s == [] || s[0] == '/' || s[0] == '?' then 0 else 1 + NameLength(s[1..])
  }

  /** What the scanner ends with when it reads `s` in the query state. */
  function QueryResult(p: Parts, s: string): Scan
  {
    Scan(AwaitingQueryEnd, p.(queries := p.queries + NonSlash(s)))
  }

  /** What the scanner ends with when it reads `s` in the object state, object id still empty. */
  function ObjectResult(p: Parts, s: string): Scan
  {
    var r := NonSlash(s);
    if r == [] then Scan(AwaitingObjectEnd, p)
    else if r[0] == '?' then Scan(AwaitingQueryEnd, p.(queries := p.queries + r[1..]))
    else Scan(AwaitingObjectEnd, p.(objectId := p.objectId + r))
  }

  /** What the scanner ends with when it reads `s` in the container state. */
  function ContainerResult(p: Parts, s: string): Scan
  {
    var j := NameLength(s);
    var named := p.(container := p.container + s[..j]);
    if j == |s| then Scan(AwaitingContainerEnd, named)
    else if s[j] == '?' then QueryResult(named, s[j + 1..])
    else ObjectResult(named, s[j + 1..])
  }

  /** What the scanner ends with when it reads `s` from its initial state. */
  function FirstResult(p: Parts, s: string): Scan
  {
    var t := DropLeadingSlashes(s);
    if t == [] then Scan(AwaitingFirstNonSlash, p)
    else ContainerResult(p.(container := p.container + [t[0]]), t[1..])
  }

  /** The state the scanner is left in after `path`. */
  function FinalState(path: string): LineState
  {
    FirstResult(NoParts, path).state
  }

  /**
   * The split of `path`: leading slashes are skipped; the first remaining
   * character and the run after it up to the first '/' or '?' form the
   * container; after a '/', the remaining non-'/' characters form the object
   * id, unless the first of them is '?', which starts the query; after a '?'
   * that ends the container, the remaining non-'/' characters form the query.
   */
  function Split(path: string): Parts
  {
    FirstResult(NoParts, path).parts
  }

  // ---------------------------------------------------------------------------
  // The scanner computes the declarative split.
  // ---------------------------------------------------------------------------

  lemma {:induction false} QueryRun(p: Parts, s: string)
    ensures Run(Scan(AwaitingQueryEnd, p), s) == QueryResult(p, s)
    decreases |s|
  {
    if s != [] {
      var next := Step(Scan(AwaitingQueryEnd, p), s[0]);
      QueryRun(next.parts, s[1..]);
    }
  }

  lemma {:induction false} ObjectRunNamed(p: Parts, s: string)
    requires p.objectId != []
    ensures Run(Scan(AwaitingObjectEnd, p), s)
         == Scan(AwaitingObjectEnd, p.(objectId := p.objectId + NonSlash(s)))
    decreases |s|
  {
    if s != [] {
      var next := Step(Scan(AwaitingObjectEnd, p), s[0]);
      ObjectRunNamed(next.parts, s[1..]);
    }
  }

  lemma {:induction false} ObjectRun(p: Parts, s: string)
    requires p.objectId == []
    ensures Run(Scan(AwaitingObjectEnd, p), s) == ObjectResult(p, s)
    decreases |s|
  {
    if s != [] {
      var rest := s[1..];
      if s[0] == '/' {
        ObjectRun(p, rest);
      } else if s[0] == '?' {
        QueryRun(p, rest);
        assert NonSlash(s) == [s[0]] + NonSlash(rest);
        assert NonSlash(s)[1..] == NonSlash(rest);
      } else {
        assert p.objectId + [s[0]] == [s[0]];
        ObjectRunNamed(p.(objectId := [s[0]]), rest);
        assert NonSlash(s) == [s[0]] + NonSlash(rest);
        assert p.objectId + NonSlash(s) == NonSlash(s);
      }
    }
  }

  lemma {:induction false} ContainerRun(p: Parts, s: string)
    requires p.objectId == []
    ensures Run(Scan(AwaitingContainerEnd, p), s) == ContainerResult(p, s)
    decreases |s|
  {
    if s != [] {
      var rest := s[1..];
      if s[0] == '/' {
        ObjectRun(p, rest);
      } else if s[0] == '?' {
        QueryRun(p, rest);
      } else {
        var named := p.(container := p.container + [s[0]]);
        ContainerRun(named, rest);
        var j := NameLength(rest);
        assert NameLength(s) == j + 1;
        assert named.container + rest[..j] == p.container + s[..j + 1];
        if j < |rest| {
          assert s[j + 2..] == rest[j + 1..];
        }
      }
    }
  }

  lemma {:induction false} FirstRun(p: Parts, s: string)
    requires p.objectId == []
    ensures Run(Scan(AwaitingFirstNonSlash, p), s) == FirstResult(p, s)
    decreases |s|
  {
    if s != [] {
      if s[0] == '/' {
        FirstRun(p, s[1..]);
      } else {
        ContainerRun(p.(container := p.container + [s[0]]), s[1..]);
      }
    }
  }

  /** The scanner, run over the whole path from its initial state, yields the split. */
  lemma ScannerComputesSplit(path: string)
    ensures Run(Scan(AwaitingFirstNonSlash, NoParts), path) == Scan(FinalState(path), Split(path))
  {
    FirstRun(NoParts, path);
  }

  // ---------------------------------------------------------------------------
  // What the split promises.
  // ---------------------------------------------------------------------------

  lemma HeadThenSlice(t: string, j: nat)
    requires j + 1 <= |t|
    ensures [t[0]] + t[1..][..j] == t[..j + 1]
  {
  }

  /** The first non-'/' character opens the container, which then runs for NameLength characters. */
  lemma FirstOpensContainer(path: string, t: string, j: nat)
    requires t == DropLeadingSlashes(path) && t != [] && j == NameLength(t[1..])
    ensures FirstResult(NoParts, path) == ContainerResult(Parts([t[0]], "", ""), t[1..])
  {
    assert NoParts.(container := NoParts.container + [t[0]]) == Parts([t[0]], "", "");
  }

  lemma ContainerRuns(p: Parts, s: string, j: nat)
    requires j == NameLength(s)
    ensures ContainerResult(p, s).parts.container == p.container + s[..j]
  {
  }

  /**
   * The split spelled out: `t` is the path without its leading slashes and
   * the container is t[0] followed by the next `j` characters;
   * SplitAfterQuery and SplitAfterSlash give what follows.
   */
  lemma SplitContainer(path: string) returns (t: string, j: nat)
    ensures t == DropLeadingSlashes(path)
    ensures t == [] ==> Split(path) == NoParts && FinalState(path) == AwaitingFirstNonSlash
    ensures t != [] ==> j == NameLength(t[1..]) && Split(path).container == t[..j + 1]
    ensures t != [] && j + 1 == |t| ==>
              Split(path) == Parts(t, "", "") && FinalState(path) == AwaitingContainerEnd
  {
    t := DropLeadingSlashes(path);
    j := 0;
    if t != [] {
      j := NameLength(t[1..]);
      FirstOpensContainer(path, t, j);
      ContainerRuns(Parts([t[0]], "", ""), t[1..], j);
      HeadThenSlice(t, j);
      if j + 1 == |t| {
        assert t[..j + 1] == t;
      }
    }
  }

  lemma SplitAfterQuery(path: string, t: string, j: nat)
    requires t == DropLeadingSlashes(path) && t != [] && j == NameLength(t[1..])
    requires j + 1 < |t| && t[j + 1] == '?'
    ensures Split(path) == Parts(t[..j + 1], "", NonSlash(t[j + 2..]))
    ensures FinalState(path) == AwaitingQueryEnd
  {
    var s := t[1..];
    FirstOpensContainer(path, t, j);
    HeadThenSlice(t, j);
    assert s[j + 1..] == t[j + 2..];
    var named := Parts(t[..j + 1], "", "");
    assert ContainerResult(Parts([t[0]], "", ""), s) == QueryResult(named, t[j + 2..]);
  }

  lemma SplitAfterSlash(path: string, t: string, j: nat)
    requires t == DropLeadingSlashes(path) && t != [] && j == NameLength(t[1..])
    requires j + 1 < |t| && t[j + 1] == '/'
    ensures var r := NonSlash(t[j + 2..]);
            Split(path) == (if r == [] then Parts(t[..j + 1], "", "")
                            else if r[0] == '?' then Parts(t[..j + 1], "", r[1..])
                            else Parts(t[..j + 1], r, ""))
            && FinalState(path) == (if r != [] && r[0] == '?' then AwaitingQueryEnd else AwaitingObjectEnd)
  {
    var s := t[1..];
    FirstOpensContainer(path, t, j);
    HeadThenSlice(t, j);
    assert s[j + 1..] == t[j + 2..];
    var named := Parts(t[..j + 1], "", "");
    assert ContainerResult(Parts([t[0]], "", ""), s) == ObjectResult(named, t[j + 2..]);
    var r := NonSlash(t[j + 2..]);
    assert "" + r == r;
    if r != [] {
      assert "" + r[1..] == r[1..];
    }
  }

  /** An empty path and "/" leave all three parts empty. */
  lemma EmptyPathsAreEmpty()
    ensures Split("") == NoParts && Split("/") == NoParts
  {
    assert DropLeadingSlashes("/") == "";
  }

  /** A leading '/' makes no difference. */
  lemma LeadingSlashIgnored(path: string)
    ensures Split("/" + path) == Split(path)
  {
    assert ("/" + path)[1..] == path;
  }

  /** The container never holds '/', and holds '?' only as its first character. */
  lemma ContainerShape(path: string)
    ensures forall k :: 0 <= k < |Split(path).container| ==> Split(path).container[k] != '/'
    ensures forall k :: 0 < k < |Split(path).container| ==> Split(path).container[k] != '?'
  {
    var t, j := SplitContainer(path);
    if t != [] {
      var c := Split(path).container;
      forall k | 0 < k < |c| ensures c[k] != '/' && c[k] != '?' {
        assert c[k] == t[1..][k - 1];
      }
    }
  }

  /** Every '/' after the container is dropped: neither the object id nor the query holds one. */
  lemma NoSlashAfterContainer(path: string)
    ensures forall k :: 0 <= k < |Split(path).objectId| ==> Split(path).objectId[k] != '/'
    ensures forall k :: 0 <= k < |Split(path).queries| ==> Split(path).queries[k] != '/'
  {
    var t, j := SplitContainer(path);
    if t != [] && j + 1 < |t| {
      if t[j + 1] == '?' {
        SplitAfterQuery(path, t, j);
      } else {
        SplitAfterSlash(path, t, j);
        var r := NonSlash(t[j + 2..]);
        if r != [] {
          assert forall k :: 0 <= k < |r[1..]| ==> r[1..][k] == r[k + 1];
        }
      }
    }
  }

  /**
   * A '?' starts the query only right after the container or as the first
   * object character: an object id never starts with '?', and a path that has
   * an object id ends in the object state, so a later '?' joins the object id
   * and there is no query.
   */
  lemma ObjectOrQuery(path: string)
    ensures Split(path).objectId != [] ==> Split(path).objectId[0] != '?'
    ensures Split(path).objectId != [] ==> FinalState(path) == AwaitingObjectEnd
    ensures Split(path).objectId != [] ==> Split(path).queries == []
    ensures Split(path).queries != [] ==> FinalState(path) == AwaitingQueryEnd
  {
    var t, j := SplitContainer(path);
    if t != [] && j + 1 < |t| {
      if t[j + 1] == '?' {
        SplitAfterQuery(path, t, j);
      } else {
        SplitAfterSlash(path, t, j);
      }
    }
  }

  /** The characters of `s` before index `j`, without '/', followed by those after it. */
  lemma {:induction false} NonSlashSplit(s: string, j: nat)
    requires j <= |s|
    ensures NonSlash(s) == NonSlash(s[..j]) + NonSlash(s[j..])
    decreases j
  {
    if j > 0 {
      NonSlashSplit(s[1..], j - 1);
      assert s[1..][..j - 1] == s[..j][1..];
      assert s[1..][j - 1..] == s[j..];
    }
  }

  lemma {:induction false} NonSlashOfName(s: string)
    requires forall k :: 0 <= k < |s| ==> s[k] != '/'
    ensures NonSlash(s) == s
    decreases |s|
  {
    if s != [] {
      NonSlashOfName(s[1..]);
    }
  }

  lemma {:induction false} NonSlashOfSlashes(s: string)
    requires forall k :: 0 <= k < |s| ==> s[k] == '/'
    ensures NonSlash(s) == []
    decreases |s|
  {
    if s != [] {
      NonSlashOfSlashes(s[1..]);
    }
  }

  /** The non-'/' characters of a path are those of the path without its leading slashes. */
  lemma NonSlashDropsLeading(path: string)
    ensures NonSlash(path) == NonSlash(DropLeadingSlashes(path))
  {
    var t := DropLeadingSlashes(path);
    DroppedAreSlashes(path);
    NonSlashSplit(path, |path| - |t|);
    NonSlashOfSlashes(path[..|path| - |t|]);
    assert path[|path| - |t|..] == t;
  }

  /** The container is the run of t up to the character that ends it; it holds no '/'. */
  lemma NonSlashOfContainer(t: string, j: nat)
    requires t != [] && t[0] != '/' && j == NameLength(t[1..])
    ensures NonSlash(t) == t[..j + 1] + NonSlash(t[j + 1..])
  {
    NonSlashSplit(t, j + 1);
    HeadThenSlice(t, j);
    var c := t[..j + 1];
    forall k | 0 <= k < |c| ensures c[k] != '/' {
      if k > 0 {
        assert c[k] == t[1..][k - 1];
      }
    }
    NonSlashOfName(c);
  }

  /** After the container comes the character that ended it, then the rest. */
  lemma NonSlashPastContainer(t: string, j: nat)
    requires j + 1 < |t|
    ensures NonSlash(t[j + 1..]) == (if t[j + 1] == '/' then [] else [t[j + 1]]) + NonSlash(t[j + 2..])
  {
    assert t[j + 1..][1..] == t[j + 2..];
  }

  /** The '?' that the scanner consumed when it entered the query state, if it did. */
  function QueryMark(path: string): string
  {
    if FinalState(path) == AwaitingQueryEnd then ['?'] else []
  }

  /**
   * Character conservation, in order: the non-'/' characters of the path are
   * exactly the container, then the object id, then the '?' that started the
   * query (if the query state was entered), then the query.
   */
  lemma Conservation(path: string)
    ensures var p := Split(path);
            NonSlash(path) == p.container + p.objectId + QueryMark(path) + p.queries
  {
    var t, j := SplitContainer(path);
    if t == [] {
      NonSlashDropsLeading(path);
      assert NonSlash(path) == [] + [] + [] + [];
    } else if j + 1 == |t| {
      NonSlashAroundContainer(path, t, j);
      assert t[j + 1..] == [];
      assert NonSlash(path) == t[..j + 1] + [] + [] + [];
    } else if t[j + 1] == '?' {
      ConservationAfterQuery(path, t, j);
    } else {
      ConservationAfterSlash(path, t, j);
    }
  }

  /** Conservation when a '?' ends the container. */
  lemma ConservationAfterQuery(path: string, t: string, j: nat)
    requires t == DropLeadingSlashes(path) && t != [] && j == NameLength(t[1..]) && j + 1 < |t| && t[j + 1] == '?'
    ensures var p := Split(path);
            NonSlash(path) == p.container + p.objectId + QueryMark(path) + p.queries
  {
    NonSlashAroundContainer(path, t, j);
    NonSlashPastContainer(t, j);
    SplitAfterQuery(path, t, j);
    RegroupAfterQuery(t[..j + 1], NonSlash(t[j + 2..]));
  }

  /** Conservation when a '/' ends the container. */
  lemma ConservationAfterSlash(path: string, t: string, j: nat)
    requires t == DropLeadingSlashes(path) && t != [] && j == NameLength(t[1..]) && j + 1 < |t| && t[j + 1] == '/'
    ensures var p := Split(path);
            NonSlash(path) == p.container + p.objectId + QueryMark(path) + p.queries
  {
    NonSlashAroundContainer(path, t, j);
    NonSlashPastContainer(t, j);
    SplitAfterSlash(path, t, j);
    RegroupAfterSlash(t[..j + 1], NonSlash(t[j + 2..]));
  }

  /** The non-'/' characters of the path: the container, then those after the character that ended it. */
  lemma NonSlashAroundContainer(path: string, t: string, j: nat)
    requires t == DropLeadingSlashes(path) && t != [] && j == NameLength(t[1..])
    ensures NonSlash(path) == t[..j + 1] + NonSlash(t[j + 1..])
  {
    NonSlashDropsLeading(path);
    NonSlashOfContainer(t, j);
  }

  lemma RegroupAfterQuery(c: string, r: string)
    ensures c + (['?'] + r) == c + [] + ['?'] + r
  {
  }

  lemma RegroupAfterSlash(c: string, r: string)
    ensures c + r == (if r != [] && r[0] == '?' then c + [] + ['?'] + r[1..] else c + r + [] + [])
  {
    if r != [] && r[0] == '?' {
      assert r == ['?'] + r[1..];
    }
  }

  /** The total length of the three parts: one less than the non-'/' count when the query state was entered. */
  lemma LengthConservation(path: string)
    ensures var p := Split(path);
            |p.container| + |p.objectId| + |p.queries|
            == |NonSlash(path)| - |QueryMark(path)|
  {
    Conservation(path);
  }

  /** `s` holds neither '/' nor '?'. */
  predicate PlainName(s: string)
  {
    forall k :: 0 <= k < |s| ==> s[k] != '/' && s[k] != '?'
  }

  /** `s` holds no '/'. */
  predicate NoSlash(s: string)
  {
    forall k :: 0 <= k < |s| ==> s[k] != '/'
  }

  lemma {:induction false} NameLengthOfPlain(n: string, rest: string)
    requires PlainName(n) && rest != [] && (rest[0] == '/' || rest[0] == '?')
    ensures NameLength(n + rest) == |n|
    decreases |n|
  {
    if n != [] {
      assert (n + rest)[1..] == n[1..] + rest;
      NameLengthOfPlain(n[1..], rest);
    }
  }

  /** "/" + bucket + c + rest leaves `bucket` as container, for a plain bucket name and c either '/' or '?'. */
  lemma PlainBucket(bucket: string, c: char, rest: string) returns (t: string, j: nat)
    requires bucket != [] && PlainName(bucket) && (c == '/' || c == '?')
    ensures t == DropLeadingSlashes("/" + bucket + [c] + rest) && t != [] && j == NameLength(t[1..])
    ensures j + 1 < |t| && t[j + 1] == c && t[..j + 1] == bucket && t[j + 2..] == rest
  {
    var path := "/" + bucket + [c] + rest;
    t := bucket + [c] + rest;
    assert path[1..] == t;
    assert t[1..] == bucket[1..] + ([c] + rest);
    NameLengthOfPlain(bucket[1..], [c] + rest);
    j := |bucket| - 1;
    assert t[..j + 1] == bucket;
    assert t[j + 2..] == rest;
  }

  /** The path "/" + bucket + "?" + query, for a plain bucket name and a query without '/'. */
  lemma BucketThenQuery(bucket: string, query: string)
    requires bucket != [] && PlainName(bucket) && NoSlash(query)
    ensures Split("/" + bucket + "?" + query) == Parts(bucket, "", query)
  {
    var t, j := PlainBucket(bucket, '?', query);
    NonSlashOfName(query);
    SplitAfterQuery("/" + bucket + "?" + query, t, j);
  }

  /** The path "/" + bucket + "/" + key, for a plain bucket name and a key without '/' not starting with '?'. */
  lemma BucketThenKey(bucket: string, key: string)
    requires bucket != [] && PlainName(bucket) && NoSlash(key) && key != [] && key[0] != '?'
    ensures Split("/" + bucket + "/" + key) == Parts(bucket, key, "")
  {
    var t, j := PlainBucket(bucket, '/', key);
    NonSlashOfName(key);
    SplitAfterSlash("/" + bucket + "/" + key, t, j);
  }

  lemma Examples()
    ensures Split("/bucket/key") == Parts("bucket", "key", "")
    ensures Split("/b?x") == Parts("b", "", "x")
  {
    BucketThenKey("bucket", "key");
    assert "/" + "bucket" + "/" + "key" == "/bucket/key";
    BucketThenQuery("b", "x");
    assert "/" + "b" + "?" + "x" == "/b?x";
  }

  // ---------------------------------------------------------------------------
  // A first character '?' is taken into the container.
  // ---------------------------------------------------------------------------

  /**
   * A '?' opens the query only after the container has begun: a request for
   * the service root with a query string, "/?" + query, yields a container
   * named "?" + query and no query at all.
   */
  lemma LeadingQueryJoinsContainer(query: string)
    requires PlainName(query)
    ensures Split("/?" + query) == Parts("?" + query, "", "")
  {
    var path := "/?" + query;
    var t, j := SplitContainer(path);
    assert t == "?" + query by {
      assert path[1..] == "?" + query;
    }
    assert t[1..] == query;
    NameLengthOfName(query);
  }

  lemma {:induction false} NameLengthOfName(n: string)
    requires PlainName(n)
    ensures NameLength(n) == |n|
    decreases |n|
  {
    if n != [] {
      NameLengthOfName(n[1..]);
    }
  }

  // ---------------------------------------------------------------------------
  // The S3Path object.
  // ---------------------------------------------------------------------------

  /** An HTTP request as far as the path splitter looks at it; `host` is "" when the Host header is absent. */
  datatype HttpRequest = HttpRequest(host: string, path: string)

  datatype PathError = SubstrOutOfRange

  class S3Path {
    var containerName: string
    var objectId: string
    var queries: string

    function Value(): Parts
      reads this
    {
      Parts(containerName, objectId, queries)
    }

    /** An object with all three members empty, as the members are before any splitting. */
    constructor Empty()
      ensures Value() == NoParts
    {
      containerName, objectId, queries := "", "", "";
    }

    /** Splits a bare path. */
    constructor FromPath(path: string)
      ensures Value() == Split(path)
    {
      containerName, objectId, queries := "", "", "";
      new;
      FromPathOnly(path);
      ScannerComputesSplit(path);
      EmptyPathsAreEmpty();
    }

    /**
     * Splits the request's path, or, when the request names a host, takes the
     * host as container and the path after its first character as object id;
     * the latter fails on an empty path, where taking a substring from index 1
     * raises.
     */
    static method FromRequest(request: HttpRequest) returns (r: Result<S3Path, PathError>)
      ensures r.Failure? <==> request.host != "" && request.path == ""
      ensures r.Success? && request.host != "" ==>
                r.value.Value() == Parts(request.host, request.path[1..], "")
      ensures r.Success? && request.host == "" ==> r.value.Value() == Split(request.path)
    {
      var p := new S3Path.Empty();
      if request.host != "" {
        if request.path == "" {
          return Failure(SubstrOutOfRange);
        }
        p.containerName := request.host;
        p.objectId := request.path[1..];
      } else {
        p.FromPathOnly(request.path);
        ScannerComputesSplit(request.path);
        EmptyPathsAreEmpty();
      }
      return Success(p);
    }

    /**
     * Runs the scanner over `path`, appending to the three members; an empty
     * path and "/" return at once.
     */
    method FromPathOnly(path: string)
      modifies this
      ensures path == "" || path == "/" ==> Value() == old(Value())
      ensures path != "" && path != "/" ==>
                Value() == Run(Scan(AwaitingFirstNonSlash, old(Value())), path).parts
    {
      if path == "" || path == "/" {
        return;
      }
      ghost var start := Scan(AwaitingFirstNonSlash, Value());
      var lineState := AwaitingFirstNonSlash;
      var i := 0;
      while i < |path|
        invariant 0 <= i <= |path|
        invariant Run(Scan(lineState, Value()), path[i..]) == Run(start, path)
      {
        var c := path[i];
        assert path[i..][0] == c && path[i..][1..] == path[i + 1..];
        if c == '/' {
          if lineState == AwaitingFirstNonSlash {
            i := i + 1;
            continue;
          } else if lineState == AwaitingContainerEnd {
            lineState := AwaitingObjectEnd;
          }
        } else {
          if lineState == AwaitingFirstNonSlash {
            lineState := AwaitingContainerEnd;
            containerName := containerName + [c];
          } else if lineState == AwaitingContainerEnd {
            if c == '?' {
              lineState := AwaitingQueryEnd;
            } else {
              containerName := containerName + [c];
            }
          } else if lineState == AwaitingObjectEnd {
            if objectId == [] && c == '?' {
              lineState := AwaitingQueryEnd;
            } else {
              objectId := objectId + [c];
            }
          } else if lineState == AwaitingQueryEnd {
            queries := queries + [c];
          }
        }
        i := i + 1;
      }
      assert path[i..] == [];
    }
  }
}
