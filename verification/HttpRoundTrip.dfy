// The server's parser reads back exactly what the client's printer wrote.
module HttpRoundTrip {
  import opened Common
  import opened Text
  import opened Http
  import opened HttpParser
  import opened HttpMessage
  import opened HttpClient

  predicate DistinctNames(fs: seq<Field>) {
    forall i, j | 0 <= i < j < |fs| :: Lower(fs[i].name) != Lower(fs[j].name)
  }

  /** What the printer relies on: no separators inside the parts, and framing left to the client. */
  predicate Clean(r: Request) {
    && RealMethod(r.verb)
    && CleanTarget(r.target)
    && CleanValue(r.host)
    && (forall i | 0 <= i < |r.headers| :: CleanField(r.headers[i]))
    && DistinctNames(r.headers)
    && !AnyNamed(r.headers, "content-length")
    && !AnyNamed(r.headers, "transfer-encoding")
    && |r.body| < TWO63
  }

  predicate Fits(r: Request, lim: Limits) { MessageFits(Sent(r), lim) }

  // ---- the header map ----

  /** `h` holds exactly the fields `fs`, each under its lower-cased name. */
  ghost predicate Holds(h: HeaderMap, fs: seq<Field>) {
    && (forall i | 0 <= i < |fs| :: Lower(fs[i].name) in h && h[Lower(fs[i].name)] == fs[i])
    && forall k | k in h :: exists i | 0 <= i < |fs| :: Lower(fs[i].name) == k
  }

  lemma {:induction false} AddAllHolds(h: HeaderMap, done: seq<Field>, fs: seq<Field>)
    requires Holds(h, done) && DistinctNames(done + fs)
    ensures Holds(AddAll(h, fs), done + fs)
    decreases fs
  {
    hide Lower;
    if fs == [] {
      assert done + fs == done;
    } else {
      var f, all := fs[0], done + fs;
      forall i | 0 <= i < |done|
        ensures Lower(done[i].name) != Lower(f.name)
      {
        assert all[i] == done[i] && all[|done|] == f;
      }
      var h1 := AddField(h, f.name, f.value);
      assert h1 == h[Lower(f.name) := f];
      HoldsSnoc(h, done, f);
      assert (done + [f]) + fs[1..] == done + fs;
      AddAllHolds(h1, done + [f], fs[1..]);
    }
  }

  lemma HoldsSnoc(h: HeaderMap, fs: seq<Field>, f: Field)
    requires Holds(h, fs)
    requires forall i | 0 <= i < |fs| :: Lower(fs[i].name) != Lower(f.name)
    ensures Holds(h[Lower(f.name) := f], fs + [f])
  {
    hide Lower;
    var gs, h1 := fs + [f], h[Lower(f.name) := f];
    forall k | k in h1
      ensures exists i | 0 <= i < |gs| :: Lower(gs[i].name) == k
    {
      if k == Lower(f.name) {
        assert Lower(gs[|fs|].name) == k;
      } else {
        var i :| 0 <= i < |fs| && Lower(fs[i].name) == k;
        assert Lower(gs[i].name) == k;
      }
    }
  }

  lemma LookupMissing(h: HeaderMap, fs: seq<Field>, name: string)
    requires Holds(h, fs) && !AnyNamed(fs, name)
    ensures Lookup(h, name).None?
  {
    hide Lower;
    var k := Lower(name);
    assert forall i | 0 <= i < |fs| :: Named(fs[i], name) <==> Lower(fs[i].name) == k;
  }

  // ---- the fields the client sends ----

  lemma LowerFraming()
    ensures Lower("Content-Length") == Lower("content-length") == "content-length"
    ensures Lower("Transfer-Encoding") == Lower("transfer-encoding") == "transfer-encoding"
  {
    hide Lower;
    LowerLength();
    LowerEncoding();
  }

  lemma LowerLength()
    ensures Lower("Content-Length") == Lower("content-length") == "content-length"
  {
  }

  lemma LowerEncoding()
    ensures Lower("Transfer-Encoding") == Lower("transfer-encoding") == "transfer-encoding"
  {
  }

  lemma LowerOwn()
    ensures Lower("Host") == Lower("host") == "host"
    ensures Lower("Connection") == Lower("connection") == "connection"
    ensures Lower("User-Agent") == Lower("user-agent") == "user-agent"
  {
  }

  lemma NamesDiffer()
    ensures Lower("Host") == Lower("host") == "host"
    ensures Lower("Connection") == Lower("connection") == "connection"
    ensures Lower("User-Agent") == Lower("user-agent") == "user-agent"
    ensures Lower("Content-Length") == Lower("content-length") == "content-length"
    ensures Lower("Transfer-Encoding") == Lower("transfer-encoding") == "transfer-encoding"
  {
    hide Lower;
    LowerOwn();
    LowerFraming();
  }

  lemma {:induction false} KeptDistinct(fs: seq<Field>)
    requires DistinctNames(fs)
    ensures DistinctNames(Kept(fs))
  {
    hide Lower, Dropped;
    if fs != [] {
      KeptDistinct(fs[1..]);
      var rest := Kept(fs[1..]);
      forall j | 0 <= j < |rest|
        ensures Lower(fs[0].name) != Lower(rest[j].name)
      {
        assert rest[j] in fs[1..];
        var k :| 0 <= k < |fs[1..]| && fs[1..][k] == rest[j];
        assert fs[k + 1] == rest[j];
      }
    }
  }

  lemma DistinctAppend(a: seq<Field>, b: seq<Field>)
    requires DistinctNames(a) && DistinctNames(b)
    requires forall i, j | 0 <= i < |a| && 0 <= j < |b| :: Lower(a[i].name) != Lower(b[j].name)
    ensures DistinctNames(a + b)
  {
    hide Lower;
  }

  /** Kept fields keep what all headers have, and are neither Host nor Connection. */
  lemma KeptMember(fs: seq<Field>, j: nat)
    requires j < |Kept(fs)|
    ensures !Dropped(Kept(fs)[j])
    ensures exists k | 0 <= k < |fs| :: fs[k] == Kept(fs)[j]
  {
    assert Kept(fs)[j] in Kept(fs);
  }

  lemma SentDistinct(r: Request)
    requires Clean(r)
    ensures DistinctNames(SentFields(r))
  {
    hide Lower, Kept, Print;
    NamesDiffer();
    KeptDistinct(r.headers);
    var own, kept, extra := [Field("Host", r.host), Field("Connection", "close")], Kept(r.headers), Extra(r);
    forall i, j | 0 <= i < |own| && 0 <= j < |kept|
      ensures Lower(own[i].name) != Lower(kept[j].name)
    {
      KeptMember(r.headers, j);
    }
    DistinctAppend(own, kept);
    forall i, j | 0 <= i < |own + kept| && 0 <= j < |extra|
      ensures Lower((own + kept)[i].name) != Lower(extra[j].name)
    {
      if i >= 2 {
        KeptMember(r.headers, i - 2);
        var k :| 0 <= k < |r.headers| && r.headers[k] == kept[i - 2];
        assert !Named(r.headers[k], "content-length");
        assert AnyNamed(r.headers, "user-agent") || !Named(r.headers[k], "user-agent");
      }
    }
    DistinctAppend(own + kept, extra);
  }

  lemma OwnNamesClean()
    ensures CleanName("Host") && CleanName("Connection")
    ensures CleanName("User-Agent") && CleanName("Content-Length")
  {
  }

  lemma OwnValuesClean()
    ensures CleanValue("close") && CleanValue("socketify-http-client")
  {
  }

  lemma OwnClean(r: Request)
    requires Clean(r)
    ensures CleanField(Field("Host", r.host)) && CleanField(Field("Connection", "close"))
    ensures CleanField(Field("User-Agent", "socketify-http-client"))
    ensures CleanField(Field("Content-Length", Print(|r.body|, 10)))
  {
    hide Print, AnyNamed, DistinctNames, RealMethod, CleanTarget, CleanName, CleanValue;
    OwnNamesClean();
    OwnValuesClean();
    DecimalClean(|r.body|);
  }

  lemma SentClean(r: Request)
    requires Clean(r)
    ensures forall i | 0 <= i < |SentFields(r)| :: CleanField(SentFields(r)[i])
  {
    hide Kept, Print, AnyNamed, CleanField, DistinctNames, RealMethod, CleanTarget, CleanValue;
    OwnClean(r);
    var fs, n := SentFields(r), 2 + |Kept(r.headers)|;
    forall i | 0 <= i < |fs|
      ensures CleanField(fs[i])
    {
      if 2 <= i < n {
        assert fs[i] == Kept(r.headers)[i - 2];
        KeptMember(r.headers, i - 2);
      } else if i >= n {
        assert fs[i] == Extra(r)[i - n];
      }
    }
  }

  lemma DecimalClean(n: nat)
    ensures CleanValue(Print(n, 10))
  {
    var s := Print(n, 10);
    assert s[0] in s && s[|s| - 1] in s;
  }

  /** Which framing headers are on the wire. */
  lemma SentFraming(r: Request)
    requires Clean(r)
    ensures !AnyNamed(SentFields(r), "transfer-encoding")
    ensures r.body == "" ==> !AnyNamed(SentFields(r), "content-length")
    ensures r.body != "" ==>
              && SentFields(r) != []
              && SentFields(r)[|SentFields(r)| - 1] == Field("Content-Length", Print(|r.body|, 10))
  {
    hide Lower, Kept, Print;
    NamesDiffer();
    var fs := SentFields(r);
    var n := 2 + |Kept(r.headers)|;
    forall i | 0 <= i < |fs|
      ensures !Named(fs[i], "transfer-encoding")
      ensures r.body == "" ==> !Named(fs[i], "content-length")
    {
      if 2 <= i < n {
        assert fs[i] == Kept(r.headers)[i - 2];
        KeptMember(r.headers, i - 2);
        var k :| 0 <= k < |r.headers| && r.headers[k] == fs[i];
        assert !Named(r.headers[k], "transfer-encoding") && !Named(r.headers[k], "content-length");
      } else if i >= n {
        assert fs[i] == Extra(r)[i - n];
      }
    }
  }

  lemma SentHeaders(r: Request)
    requires Clean(r)
    ensures var h := AddAll(map[], SentFields(r));
            && Holds(h, SentFields(r))
            && Lookup(h, "Transfer-Encoding").None?
            && Lookup(h, "Content-Length") == if r.body == "" then None else Some(Print(|r.body|, 10))
  {
    hide Lower, SentFields, AddAll, Print;
    var fs := SentFields(r);
    SentDistinct(r);
    assert [] + fs == fs;
    AddAllHolds(map[], [], fs);
    var h := AddAll(map[], fs);
    SentFraming(r);
    NamesDiffer();
    LookupMissing(h, fs, "transfer-encoding");
    if r.body == "" {
      LookupMissing(h, fs, "content-length");
    } else {
      assert fs[|fs| - 1].name == "Content-Length";
    }
  }

  /** The request as a message on the wire. */
  lemma SentMessage(r: Request)
    requires Clean(r)
    ensures CleanMessage(Sent(r)) && MessageText(Sent(r)) == Wire(r)
  {
    SentIsWire(r);
    SentClean(r);
    SentHeaders(r);
    hide SentFields, AddAll, Print, Lookup, CleanField, CleanTarget, CleanValue, AnyNamed, DistinctNames, MessageText, Wire;
  }

  lemma SentIsWire(r: Request)
    ensures MessageText(Sent(r)) == Wire(r)
  {
    hide SentFields, Render, MethodName;
  }

  /**
   * The round trip: whatever the client prints, the parser takes entirely, and
   * gives back the same method, target, headers and body.
   */
  lemma RequestRoundTrip(r: Request, lim: Limits)
    requires Clean(r) && Fits(r, lim)
    ensures var s := Run(Fresh(), Wire(r), lim);
            && s.phase == Complete
            && Used(Fresh(), Wire(r), lim) == |Wire(r)|
            && s.req.verb == r.verb && s.req.target == r.target && s.req.version == "HTTP/1.1"
            && s.body == r.body && s.view == r.body
            && Holds(s.headers, SentFields(r))
  {
    hide AddAll, SentFields, Wire, Run, Used, Clean, MessageText, CleanMessage, MessageFits, Holds;
    SentMessage(r);
    MessageRoundTrip(Sent(r), lim);
    SentHeaders(r);
  }

  /** A header of the caller's that the client leaves alone. */
  predicate Passed(f: Field) { Lower(f.name) !in {"host", "connection"} }

  lemma HeldLookup(h: HeaderMap, fs: seq<Field>, i: nat)
    requires Holds(h, fs) && i < |fs|
    ensures Lookup(h, fs[i].name) == Some(fs[i].value)
  {
    hide Lower;
  }

  /** Which of the caller's headers have the name. */
  lemma NamedMeans(fs: seq<Field>, name: string)
    requires Lower(name) == name
    ensures AnyNamed(fs, name) <==> exists i | 0 <= i < |fs| :: Lower(fs[i].name) == name
  {
    hide Lower;
  }

  /**
   * What arrives: the client's own Host and Connection, whatever the caller put
   * there; every other header of the caller; a User-Agent and the length of the
   * body when the caller gave none; and nothing else.
   */
  lemma RequestArrives(r: Request, lim: Limits)
    requires Clean(r) && Fits(r, lim)
    ensures var h := Run(Fresh(), Wire(r), lim).headers;
            && Lookup(h, "Host") == Some(r.host) && Lookup(h, "Connection") == Some("close")
            && (forall f | f in r.headers && Passed(f) :: Lookup(h, f.name) == Some(f.value))
            && ((forall f | f in r.headers :: Lower(f.name) != "user-agent") ==>
                  Lookup(h, "User-Agent") == Some("socketify-http-client"))
            && (r.body != "" ==> Lookup(h, "Content-Length") == Some(Print(|r.body|, 10)))
            && (forall k | k in h ::
                  || k in {"host", "connection", "user-agent"} || (k == "content-length" && r.body != "")
                  || exists f :: f in r.headers && Passed(f) && Lower(f.name) == k)
  {
    RequestRoundTrip(r, lim);
    var h := Run(Fresh(), Wire(r), lim).headers;
    hide *;
    FixedArrive(r, h);
    KeptArrive(r, h);
    ExtraArrive(r, h);
    OthersDoNot(r, h);
  }

  lemma FixedArrive(r: Request, h: HeaderMap)
    requires Holds(h, SentFields(r))
    ensures Lookup(h, "Host") == Some(r.host) && Lookup(h, "Connection") == Some("close")
  {
    hide Kept, Extra, Lookup, Holds;
    HeldLookup(h, SentFields(r), 0);
    HeldLookup(h, SentFields(r), 1);
  }

  lemma KeptArrive(r: Request, h: HeaderMap)
    requires Holds(h, SentFields(r))
    ensures forall f | f in r.headers && Passed(f) :: Lookup(h, f.name) == Some(f.value)
  {
    hide Extra, Lookup, Holds, Lower;
    NamesDiffer();
    forall f | f in r.headers && Passed(f)
      ensures Lookup(h, f.name) == Some(f.value)
    {
      assert f in Kept(r.headers);
      var i :| 0 <= i < |Kept(r.headers)| && Kept(r.headers)[i] == f;
      assert SentFields(r)[i + 2] == f;
      HeldLookup(h, SentFields(r), i + 2);
    }
  }

  lemma ExtraArrive(r: Request, h: HeaderMap)
    requires Clean(r) && Holds(h, SentFields(r))
    ensures (forall f | f in r.headers :: Lower(f.name) != "user-agent") ==>
              Lookup(h, "User-Agent") == Some("socketify-http-client")
    ensures r.body != "" ==> Lookup(h, "Content-Length") == Some(Print(|r.body|, 10))
  {
    hide Lookup, Holds, Lower, Kept, CleanField, CleanValue, CleanTarget, DistinctNames, Print;
    NamesDiffer();
    var fs, n := SentFields(r), 2 + |Kept(r.headers)|;
    if forall f | f in r.headers :: Lower(f.name) != "user-agent" {
      NamedMeans(r.headers, "user-agent");
      assert !AnyNamed(r.headers, "user-agent");
      assert fs[n] == Extra(r)[0] == Field("User-Agent", "socketify-http-client");
      HeldLookup(h, fs, n);
    }
    if r.body != "" {
      assert fs[|fs| - 1] == Field("Content-Length", Print(|r.body|, 10));
      HeldLookup(h, fs, |fs| - 1);
    }
  }

  lemma OthersDoNot(r: Request, h: HeaderMap)
    requires Holds(h, SentFields(r))
    ensures forall k | k in h ::
              || k in {"host", "connection", "user-agent"} || (k == "content-length" && r.body != "")
              || exists f :: f in r.headers && Passed(f) && Lower(f.name) == k
  {
    hide Lookup, Lower, Print;
    NamesDiffer();
    var fs := SentFields(r);
    forall k | k in h
      ensures || k in {"host", "connection", "user-agent"} || (k == "content-length" && r.body != "")
              || exists f :: f in r.headers && Passed(f) && Lower(f.name) == k
    {
      var i :| 0 <= i < |fs| && Lower(fs[i].name) == k;
      if 2 <= i < 2 + |Kept(r.headers)| {
        assert fs[i] == Kept(r.headers)[i - 2] && fs[i] in Kept(r.headers);
      } else if i >= 2 {
        assert fs[i] == Extra(r)[i - 2 - |Kept(r.headers)|];
      }
    }
  }
}
