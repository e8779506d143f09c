/** The uniqueness rule of a rich insert and the key it is folded into (insert.go). */
module UniqueKeys {
  import opened Options
  import opened GoStrings
  import opened Jobs
  import opened JsonStrings

  /** One dimension of a rule; a name the code does not know adds nothing to the key. */
  datatype UniqueField = UniqueWorker | UniqueQueue | UniqueArgs | UniquePriority | Unknown(name: string)

  /** None is Go's nil slice. */
  datatype UniqueBy = UniqueBy(
    period: int, states: Option<seq<State>>, fields: Option<seq<UniqueField>>, keys: seq<string>)
  {
    function States(): seq<State> {
      match states case Some(s) => s case None => [Available, Scheduled, Executing, Retryable]
    }

    function Fields(): seq<UniqueField> {
      match fields case Some(f) => f case None => [UniqueWorker, UniqueQueue, UniqueArgs]
    }

    /** insertWithDefaults. */
    function WithDefaults(): UniqueBy {
      this.(states := Some(States()), fields := Some(Fields()))
    }
  }

  /** The defaults: jobs not yet finished, compared by worker, queue and args. */
  lemma DefaultRule(period: int, keys: seq<string>)
    ensures var rule := UniqueBy(period, None, None, keys).WithDefaults();
      && rule.period == period && rule.keys == keys
      && rule.states == Some([Available, Scheduled, Executing, Retryable])
      && rule.fields == Some([UniqueWorker, UniqueQueue, UniqueArgs])
  {
  }

  /** json.Marshal of an int. */
  function IntText(n: int): string {
    if n < 0 then "-" + Itoa(-n) else Itoa(n)
  }

  /** The key part of a known field; canon stands for insertCanonicalArgs. */
  function FieldPart(j: Job, f: UniqueField, canon: string -> string): string
    requires !f.Unknown?
  {
    match f
    case UniqueWorker => "worker=" + j.worker
    case UniqueQueue => "queue=" + j.queue
    case UniqueArgs => "args=" + canon(j.args)
    case UniquePriority => "priority=" + IntText(j.priority)
  }

  function FieldParts(j: Job, fields: seq<UniqueField>, canon: string -> string): seq<string> {
    if fields == [] then []
    else
      var n := |fields| - 1;
      FieldParts(j, fields[..n], canon) + (if fields[n].Unknown? then [] else [FieldPart(j, fields[n], canon)])
  }

  // ---- sort.Strings ----

  /** Order by code point, which is the byte order of UTF-8. */
  predicate StringLe(a: string, b: string) {
    a == [] || (b != [] && (a[0] < b[0] || (a[0] == b[0] && StringLe(a[1..], b[1..]))))
  }

  lemma {:induction false} StringLeTotal(a: string, b: string)
    ensures StringLe(a, b) || StringLe(b, a)
    ensures StringLe(a, b) && StringLe(b, a) ==> a == b
  {
    if a == [] || b == [] {
    } else {
      StringLeTotal(a[1..], b[1..]);
      assert a == [a[0]] + a[1..] && b == [b[0]] + b[1..];
    }
  }

  lemma {:induction false} StringLeTransitive(a: string, b: string, c: string)
    requires StringLe(a, b) && StringLe(b, c)
    ensures StringLe(a, c)
  {
    if a == [] || !(a[0] == b[0] == c[0]) {
    } else {
      StringLeTransitive(a[1..], b[1..], c[1..]);
    }
  }

  ghost predicate SortedStrings(s: seq<string>) {
    forall i, k :: 0 <= i <= k < |s| ==> StringLe(s[i], s[k])
  }

  /** sort.Strings by insertion; the sorted order of a multiset is unique (SortedUnique). */
  method SortStrings(parts: seq<string>) returns (r: seq<string>)
    ensures SortedStrings(r) && multiset(r) == multiset(parts)
  {
    r := [];
    for i := 0 to |parts|
      invariant SortedStrings(r) && multiset(r) == multiset(parts[..i])
    {
      var k := 0;
      while k < |r| && StringLe(r[k], parts[i])
        invariant 0 <= k <= |r|
        invariant forall n :: 0 <= n < k ==> StringLe(r[n], parts[i])
      {
        k := k + 1;
      }
      InsertSorted(r, k, parts[i]);
      assert parts[..i + 1] == parts[..i] + [parts[i]];
      r := r[..k] + [parts[i]] + r[k..];
    }
    assert parts[..|parts|] == parts;
  }

  lemma InsertSorted(r: seq<string>, k: nat, p: string)
    requires SortedStrings(r) && k <= |r|
    requires forall n :: 0 <= n < k ==> StringLe(r[n], p)
    requires k < |r| ==> !StringLe(r[k], p)
    ensures SortedStrings(r[..k] + [p] + r[k..])
    ensures multiset(r[..k] + [p] + r[k..]) == multiset(r) + multiset{p}
  {
    hide StringLe;
    StringLeTotal(p, p);
    forall n | k <= n < |r| ensures StringLe(p, r[n]) {
      StringLeTotal(r[k], p);
      StringLeTransitive(p, r[k], r[n]);
    }
    assert r == r[..k] + r[k..];
  }

  lemma {:induction false} SortedUnique(a: seq<string>, b: seq<string>)
    requires SortedStrings(a) && SortedStrings(b) && multiset(a) == multiset(b)
    ensures a == b
    decreases |a|
  {
    hide StringLe;
    assert |a| == |multiset(a)| == |multiset(b)| == |b|;
    if a == [] {
    } else {
      SortedHead(a, b);
      SortedHead(b, a);
      StringLeTotal(a[0], b[0]);
      DropHead(a);
      DropHead(b);
      SortedUnique(a[1..], b[1..]);
    }
  }

  lemma SortedHead(a: seq<string>, b: seq<string>)
    requires SortedStrings(b) && multiset(a) == multiset(b) && a != [] && b != []
    ensures StringLe(b[0], a[0])
  {
    hide StringLe;
    assert a[0] in multiset(b);
    var i :| 0 <= i < |b| && b[i] == a[0];
  }

  lemma DropHead(a: seq<string>)
    requires a != []
    ensures a == [a[0]] + a[1..] && multiset(a[1..]) == multiset(a) - multiset{a[0]}
  {
    assert a == [a[0]] + a[1..];
  }

  /** A key is the encoding of the sorted parts. */
  ghost predicate IsKey(key: string, parts: seq<string>) {
    exists sorted :: SortedStrings(sorted) && multiset(sorted) == multiset(parts) && key == Encode(sorted)
  }

  /** insertUniqueKey. */
  method UniqueKey(j: Job, rule: UniqueBy, canon: string -> string) returns (key: string)
    ensures IsKey(key, rule.keys + FieldParts(j, rule.Fields(), canon))
  {
    var parts := rule.keys;
    var fields := rule.Fields();
    for i := 0 to |fields|
      invariant parts == rule.keys + FieldParts(j, fields[..i], canon)
    {
      assert fields[..i + 1][..i] == fields[..i];
      match fields[i] {
        case UniqueWorker => parts := parts + ["worker=" + j.worker];
        case UniqueQueue => parts := parts + ["queue=" + j.queue];
        case UniqueArgs => parts := parts + ["args=" + canon(j.args)];
        case UniquePriority => parts := parts + ["priority=" + IntText(j.priority)];
        case Unknown(_) =>
      }
    }
    assert fields[..|fields|] == fields;
    parts := SortStrings(parts);
    key := Encode(parts);
  }

  /** The default key: args, queue and worker, in this order whatever their values. */
  lemma DefaultKey(j: Job, period: int, canon: string -> string, key: string)
    ensures IsKey(key, FieldParts(j, UniqueBy(period, None, None, []).Fields(), canon)) <==>
      key == Encode(["args=" + canon(j.args), "queue=" + j.queue, "worker=" + j.worker])
  {
    var a, q, w := "args=" + canon(j.args), "queue=" + j.queue, "worker=" + j.worker;
    DefaultParts(j, canon);
    hide FieldParts, StringLe, Encode;
    ByFirstLetter(a, q, w);
    forall s | SortedStrings(s) && multiset(s) == multiset([w, q, a]) ensures s == [a, q, w] {
      SortedUnique(s, [a, q, w]);
    }
    assert multiset([a, q, w]) == multiset([w, q, a]);
  }

  lemma DefaultParts(j: Job, canon: string -> string)
    ensures FieldParts(j, [UniqueWorker, UniqueQueue, UniqueArgs], canon)
      == ["worker=" + j.worker, "queue=" + j.queue, "args=" + canon(j.args)]
  {
    hide FieldPart;
    OnePart(j, [], UniqueWorker, canon);
    OnePart(j, [UniqueWorker], UniqueQueue, canon);
    OnePart(j, [UniqueWorker, UniqueQueue], UniqueArgs, canon);
    KnownParts(j, canon);
    var w, q, a := FieldPart(j, UniqueWorker, canon), FieldPart(j, UniqueQueue, canon), FieldPart(j, UniqueArgs, canon);
    assert [] + [UniqueWorker] == [UniqueWorker] && [UniqueWorker] + [UniqueQueue] == [UniqueWorker, UniqueQueue];
    assert [UniqueWorker, UniqueQueue] + [UniqueArgs] == [UniqueWorker, UniqueQueue, UniqueArgs];
    assert ([w] + [q]) + [a] == [w, q, a];
  }

  lemma OnePart(j: Job, fields: seq<UniqueField>, f: UniqueField, canon: string -> string)
    requires !f.Unknown?
    ensures FieldParts(j, fields + [f], canon) == FieldParts(j, fields, canon) + [FieldPart(j, f, canon)]
  {
    assert (fields + [f])[..|fields|] == fields;
  }

  lemma KnownParts(j: Job, canon: string -> string)
    ensures FieldPart(j, UniqueWorker, canon) == "worker=" + j.worker
    ensures FieldPart(j, UniqueQueue, canon) == "queue=" + j.queue && FieldPart(j, UniqueArgs, canon) == "args=" + canon(j.args)
  {
  }

  lemma ByFirstLetter(a: string, q: string, w: string)
    requires a != [] && a[0] == 'a' && q != [] && q[0] == 'q' && w != [] && w[0] == 'w'
    ensures SortedStrings([a, q, w])
  {
    StringLeReflexive(a);
    StringLeReflexive(q);
    StringLeReflexive(w);
  }

  lemma StringLeReflexive(a: string)
    ensures StringLe(a, a)
  {
    StringLeTotal(a, a);
  }

  // ---- Equal keys mean equal fields ----

  lemma IntTextInjective(m: int, n: int)
    requires IntText(m) == IntText(n)
    ensures m == n
  {
    DigitFirst(if m < 0 then -m else m);
    DigitFirst(if n < 0 then -n else n);
    if m < 0 && n < 0 {
      assert Itoa(-m) == IntText(m)[1..] == IntText(n)[1..] == Itoa(-n);
    }
  }

  lemma DigitFirst(n: nat)
    ensures Itoa(n) != "" && Itoa(n)[0] != '-'
  {
    assert IsDigit(Itoa(n)[0]);
  }

  /** Two jobs agree on a field. */
  predicate Agree(a: Job, b: Job, f: UniqueField, canon: string -> string) {
    match f
    case UniqueWorker => a.worker == b.worker
    case UniqueQueue => a.queue == b.queue
    case UniqueArgs => canon(a.args) == canon(b.args)
    case UniquePriority => a.priority == b.priority
    case Unknown(_) => true
  }

  lemma DropPrefix(prefix: string, x: string, y: string)
    requires prefix + x == prefix + y
    ensures x == y
  {
    assert x == (prefix + x)[|prefix|..] == (prefix + y)[|prefix|..] == y;
  }

  /** A part tells its field and its value. */
  lemma PartInjective(a: Job, b: Job, f: UniqueField, g: UniqueField, canon: string -> string)
    requires !f.Unknown? && !g.Unknown? && FieldPart(a, f, canon) == FieldPart(b, g, canon)
    ensures f == g && Agree(a, b, f, canon)
  {
    assert FieldPart(a, f, canon)[0] == FieldPart(b, g, canon)[0];
    match f
    case UniqueWorker => DropPrefix("worker=", a.worker, b.worker);
    case UniqueQueue => DropPrefix("queue=", a.queue, b.queue);
    case UniqueArgs => DropPrefix("args=", canon(a.args), canon(b.args));
    case UniquePriority =>
      DropPrefix("priority=", IntText(a.priority), IntText(b.priority));
      IntTextInjective(a.priority, b.priority);
  }

  lemma {:induction false} PartIn(j: Job, fields: seq<UniqueField>, i: int, canon: string -> string)
    requires 0 <= i < |fields| && !fields[i].Unknown?
    ensures FieldPart(j, fields[i], canon) in FieldParts(j, fields, canon)
    decreases |fields|
  {
    var n := |fields| - 1;
    if i == n {
    } else {
      PartIn(j, fields[..n], i, canon);
    }
  }

  lemma {:induction false} PartFrom(j: Job, fields: seq<UniqueField>, p: string, canon: string -> string)
    requires p in FieldParts(j, fields, canon)
    ensures exists i :: 0 <= i < |fields| && !fields[i].Unknown? && FieldPart(j, fields[i], canon) == p
    decreases |fields|
  {
    var n := |fields| - 1;
    if p in FieldParts(j, fields[..n], canon) {
      PartFrom(j, fields[..n], p, canon);
      var i :| 0 <= i < n && !fields[..n][i].Unknown? && FieldPart(j, fields[..n][i], canon) == p;
      assert fields[i] == fields[..n][i];
    }
  }

  lemma {:induction false} AgreeParts(a: Job, b: Job, fields: seq<UniqueField>, canon: string -> string)
    requires forall i :: 0 <= i < |fields| ==> Agree(a, b, fields[i], canon)
    ensures FieldParts(a, fields, canon) == FieldParts(b, fields, canon)
    decreases |fields|
  {
    if fields == [] {
    } else {
      var n := |fields| - 1;
      assert Agree(a, b, fields[n], canon);
      forall i | 0 <= i < n ensures Agree(a, b, fields[..n][i], canon) {
        assert fields[..n][i] == fields[i];
      }
      AgreeParts(a, b, fields[..n], canon);
    }
  }

  /** The explicit keys are the same on both sides and cancel. */
  lemma CancelKeys(keys: seq<string>, x: seq<string>, y: seq<string>)
    requires multiset(keys + x) == multiset(keys + y)
    ensures multiset(x) == multiset(y)
  {
    forall p ensures multiset(x)[p] == multiset(y)[p] {
      assert multiset(keys + x)[p] == multiset(keys)[p] + multiset(x)[p];
      assert multiset(keys + y)[p] == multiset(keys)[p] + multiset(y)[p];
    }
  }

  /** Two jobs have one key under a rule exactly when they agree on each of its fields. */
  lemma KeysMeanFields(a: Job, b: Job, rule: UniqueBy, canon: string -> string, x: string, y: string)
    requires IsKey(x, rule.keys + FieldParts(a, rule.Fields(), canon))
    requires IsKey(y, rule.keys + FieldParts(b, rule.Fields(), canon))
    ensures x == y <==> forall i :: 0 <= i < |rule.Fields()| ==> Agree(a, b, rule.Fields()[i], canon)
  {
    hide FieldParts, FieldPart, Encode, SortedStrings;
    var fields := rule.Fields();
    var pa, pb := FieldParts(a, fields, canon), FieldParts(b, fields, canon);
    var s :| SortedStrings(s) && multiset(s) == multiset(rule.keys + pa) && x == Encode(s);
    var t :| SortedStrings(t) && multiset(t) == multiset(rule.keys + pb) && y == Encode(t);
    if x == y {
      EncodeInjective(s, t);
      CancelKeys(rule.keys, pa, pb);
      forall i | 0 <= i < |fields| ensures Agree(a, b, fields[i], canon) {
        if !fields[i].Unknown? {
          PartIn(a, fields, i, canon);
          var p := FieldPart(a, fields[i], canon);
          assert p in multiset(pb);
          PartFrom(b, fields, p, canon);
          var k :| 0 <= k < |fields| && !fields[k].Unknown? && FieldPart(b, fields[k], canon) == p;
          PartInjective(a, b, fields[i], fields[k], canon);
        }
      }
    }
    if forall i :: 0 <= i < |fields| ==> Agree(a, b, fields[i], canon) {
      AgreeParts(a, b, fields, canon);
      SortedUnique(s, t);
    }
  }
}
