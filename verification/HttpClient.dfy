// The outbound client's request printer.
module HttpClient {
  import opened Text
  import opened Http
  import opened HttpParser
  import opened HttpMessage

  /** An outbound request; `headers` lists the caller's header map in iteration order. */
  datatype Request = Request(verb: Method, target: string, host: string, headers: seq<Field>, body: string)

  predicate Named(f: Field, name: string) { IEqual(f.name, name) }

  /** Host and Connection are the client's own business. */
  predicate Dropped(f: Field) { Named(f, "host") || Named(f, "connection") }

  predicate AnyNamed(fs: seq<Field>, name: string) {
    exists i | 0 <= i < |fs| :: Named(fs[i], name)
  }

  function Kept(fs: seq<Field>): (r: seq<Field>)
    ensures forall f :: f in r <==> f in fs && !Dropped(f)
  {
    if fs == [] then []
    else (if Dropped(fs[0]) then [] else [fs[0]]) + Kept(fs[1..])
  }

  /** Header lines the client adds when the caller gave none. */
  function Extra(r: Request): seq<Field> {
    (if AnyNamed(r.headers, "user-agent") then [] else [Field("User-Agent", "socketify-http-client")])
    + (if r.body == "" || AnyNamed(r.headers, "content-length") then []
       else [Field("Content-Length", Print(|r.body|, 10))])
  }

  /** Every header line on the wire, in order. */
  function SentFields(r: Request): seq<Field> {
    [Field("Host", r.host), Field("Connection", "close")] + Kept(r.headers) + Extra(r)
  }

  /** The client's request as a message. */
  function Sent(r: Request): Message { Message(r.verb, r.target, "HTTP/1.1", SentFields(r), r.body) }

  function Wire(r: Request): string {
    LineText(r.verb, r.target, "HTTP/1.1") + "\r\n" + Render(SentFields(r)) + "\r\n" + r.body
  }

  lemma {:induction false} KeptAppend(a: seq<Field>, b: seq<Field>)
    ensures Kept(a + b) == Kept(a) + Kept(b)
  {
    if a == [] {
      assert a + b == b;
    } else {
      assert (a + b)[1..] == a[1..] + b;
      KeptAppend(a[1..], b);
    }
  }

  lemma RenderSent(r: Request)
    ensures Render(SentFields(r)) ==
            RenderField(Field("Host", r.host)) + RenderField(Field("Connection", "close"))
            + Render(Kept(r.headers)) + Render(Extra(r))
  {
    hide RenderField, Kept, Extra;
    var h, c := Field("Host", r.host), Field("Connection", "close");
    RenderAppend([h, c] + Kept(r.headers), Extra(r));
    RenderAppend([h, c], Kept(r.headers));
    assert [h, c] == [h] + [c];
    RenderAppend([h], [c]);
    assert Render([h]) == RenderField(h) && Render([c]) == RenderField(c);
  }

  lemma RenderExtra(r: Request)
    ensures Render(Extra(r)) ==
            (if AnyNamed(r.headers, "user-agent") then ""
             else RenderField(Field("User-Agent", "socketify-http-client")))
            + (if r.body == "" || AnyNamed(r.headers, "content-length") then ""
               else RenderField(Field("Content-Length", Print(|r.body|, 10))))
  {
    hide RenderField, AnyNamed, Print;
    var ua, cl := Field("User-Agent", "socketify-http-client"), Field("Content-Length", Print(|r.body|, 10));
    RenderAppend([ua], [cl]);
    assert Render([ua]) == RenderField(ua) && Render([cl]) == RenderField(cl);
  }

  lemma NoFields(fs: seq<Field>)
    ensures Render(Kept(fs[..0])) == ""
    ensures forall name :: !AnyNamed(fs[..0], name)
  {
  }

  lemma AnySnoc(fs: seq<Field>, i: nat, name: string)
    requires i < |fs|
    ensures AnyNamed(fs[..i + 1], name) == (AnyNamed(fs[..i], name) || Named(fs[i], name))
  {
    hide Named;
    if Named(fs[i], name) {
      assert Named(fs[..i + 1][i], name);
    }
    if AnyNamed(fs[..i], name) {
      var j :| 0 <= j < i && Named(fs[..i][j], name);
      assert Named(fs[..i + 1][j], name);
    }
    if AnyNamed(fs[..i + 1], name) {
      var j :| 0 <= j <= i && Named(fs[..i + 1][j], name);
      assert j < i ==> Named(fs[..i][j], name);
    }
  }

  lemma RenderKept(fs: seq<Field>, i: nat)
    requires i < |fs|
    ensures Render(Kept(fs[..i + 1])) == Render(Kept(fs[..i])) + if Dropped(fs[i]) then "" else RenderField(fs[i])
  {
    hide RenderField, Dropped;
    assert fs[..i + 1] == fs[..i] + [fs[i]];
    KeptAppend(fs[..i], [fs[i]]);
    assert [fs[i]][1..] == [];
    assert Kept([fs[i]]) == if Dropped(fs[i]) then [] else [fs[i]];
    RenderAppend(Kept(fs[..i]), Kept([fs[i]]));
    assert Render([fs[i]]) == RenderField(fs[i]);
  }

  /** Appends the caller's header lines, noting which ones the client need not add. */
  method AppendFields(wire0: string, fs: seq<Field>) returns (wire: string, hasUa: bool, hasLen: bool)
    ensures wire == wire0 + Render(Kept(fs))
    ensures hasUa == AnyNamed(fs, "user-agent") && hasLen == AnyNamed(fs, "content-length")
  {
    hide RenderField, Named, Dropped, Kept, Render, AnyNamed;
    wire, hasUa, hasLen := wire0, false, false;
    NoFields(fs);
    for i := 0 to |fs|
      invariant wire == wire0 + Render(Kept(fs[..i]))
      invariant hasUa == AnyNamed(fs[..i], "user-agent")
      invariant hasLen == AnyNamed(fs[..i], "content-length")
    {
      var f := fs[i];
      RenderKept(fs, i);
      AnySnoc(fs, i, "user-agent");
      AnySnoc(fs, i, "content-length");
      if Named(f, "user-agent") { hasUa := true; }
      if Named(f, "content-length") { hasLen := true; }
      if Dropped(f) { continue; }
      wire := wire + RenderField(f);
    }
    assert fs[..|fs|] == fs;
  }

  /** Builds the wire text by appending, as the client does. */
  method BuildRequest(r: Request) returns (wire: string)
    ensures wire == Wire(r)
  {
    hide RenderField, Render, Kept, Extra, AnyNamed, Print, MethodName;
    wire := MethodName(r.verb);
    wire := wire + " ";
    wire := wire + r.target;
    wire := wire + " HTTP/1.1\r\n";
    assert wire == LineText(r.verb, r.target, "HTTP/1.1") + "\r\n";
    hide LineText;
    wire := wire + RenderField(Field("Host", r.host));
    wire := wire + RenderField(Field("Connection", "close"));
    var hasUa, hasLen;
    wire, hasUa, hasLen := AppendFields(wire, r.headers);
    wire := AppendExtra(wire, r, hasUa, hasLen);
    RenderSent(r);
    wire := wire + "\r\n";
    wire := wire + r.body;
  }

  /** The header lines the caller left to the client. */
  method AppendExtra(wire0: string, r: Request, hasUa: bool, hasLen: bool) returns (wire: string)
    requires hasUa == AnyNamed(r.headers, "user-agent") && hasLen == AnyNamed(r.headers, "content-length")
    ensures wire == wire0 + Render(Extra(r))
  {
    hide RenderField, Render, Extra, AnyNamed, Print;
    RenderExtra(r);
    wire := wire0;
    if !hasUa {
      wire := wire + RenderField(Field("User-Agent", "socketify-http-client"));
    }
    if r.body != "" && !hasLen {
      wire := wire + RenderField(Field("Content-Length", Print(|r.body|, 10)));
    }
  }
}
