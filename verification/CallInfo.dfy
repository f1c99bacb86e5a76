/** The comma-separated call-info text handed to the application, and how it reads back. */
module CallInfo {
  import opened Text

  datatype Field = Field(name: string, value: string)

  function Render(f: Field): string {
    f.name + ":" + f.value
  }

  function Encode(fields: seq<Field>): string
    requires fields != []
  {
    if |fields| == 1 then Render(fields[0])
    else Render(fields[0]) + "," + Encode(fields[1..])
  }

  // The three formats: a fixed beginning, then one field for each unknown header.

  function AnswerFields(callId: string, headers: seq<Field>): seq<Field> {
    [Field("call_id", callId), Field("type", "outgoing")] + headers
  }

  function OfferFields(callId: string, to: string, from: string, headers: seq<Field>): seq<Field> {
    [Field("call_id", callId), Field("to", to), Field("from", from)] + headers
  }

  function EarlyMediaFields(callId: string, headers: seq<Field>): seq<Field> {
    [Field("call_id", callId)] + headers
  }

  // ---------------------------------------------------------------- the builders

  lemma {:induction false} EncodeAppend(fields: seq<Field>, f: Field)
    requires fields != []
    ensures Encode(fields + [f]) == Encode(fields) + "," + Render(f)
  {
    if |fields| == 1 {
      assert (fields + [f])[1..] == [f];
    } else {
      assert (fields + [f])[1..] == fields[1..] + [f];
      EncodeAppend(fields[1..], f);
      assert Encode(fields + [f]) == Render(fields[0]) + "," + (Encode(fields[1..]) + "," + Render(f));
    }
  }

  /** The loop that appends the unknown headers one at a time. */
  method AppendHeaders(start: string, fixed: seq<Field>, headers: seq<Field>) returns (info: string)
    requires fixed != [] && start == Encode(fixed)
    ensures info == Encode(fixed + headers)
  {
    info := start;
    assert fixed + headers[..0] == fixed;
    for i := 0 to |headers|
      invariant info == Encode(fixed + headers[..i])
    {
      EncodeAppend(fixed + headers[..i], headers[i]);
      assert fixed + headers[..i + 1] == (fixed + headers[..i]) + [headers[i]];
      info := info + "," + headers[i].name + ":" + headers[i].value;
    }
    assert headers[..|headers|] == headers;
  }

  method AnswerInfo(callId: string, headers: seq<Field>) returns (info: string)
    ensures info == Encode(AnswerFields(callId, headers))
  {
    info := "call_id:" + callId;
    info := info + "," + "type:" + "outgoing";
    EncodeAppend([Field("call_id", callId)], Field("type", "outgoing"));
    info := AppendHeaders(info, [Field("call_id", callId), Field("type", "outgoing")], headers);
  }

  method OfferInfo(callId: string, to: string, from: string, headers: seq<Field>) returns (info: string)
    ensures info == Encode(OfferFields(callId, to, from, headers))
  {
    info := "call_id:" + callId;
    info := info + "," + "to:" + to;
    EncodeAppend([Field("call_id", callId)], Field("to", to));
    info := info + "," + "from:" + from;
    EncodeAppend([Field("call_id", callId), Field("to", to)], Field("from", from));
    info := AppendHeaders(info, [Field("call_id", callId), Field("to", to), Field("from", from)], headers);
  }

  method EarlyMediaInfo(callId: string, headers: seq<Field>) returns (info: string)
    ensures info == Encode(EarlyMediaFields(callId, headers))
  {
    info := AppendHeaders("call_id:" + callId, [Field("call_id", callId)], headers);
  }

  /** The headers, each after a comma. */
  function Listed(headers: seq<Field>): string {
    if headers == [] then ""
    else "," + headers[0].name + ":" + headers[0].value + Listed(headers[1..])
  }

  lemma {:induction false} EncodeListed(fixed: seq<Field>, headers: seq<Field>)
    requires fixed != []
    ensures Encode(fixed + headers) == Encode(fixed) + Listed(headers)
    decreases |headers|
  {
    if headers == [] {
      assert fixed + headers == fixed;
    } else {
      var f := headers[0];
      EncodeAppend(fixed, f);
      EncodeListed(fixed + [f], headers[1..]);
      assert fixed + headers == (fixed + [f]) + headers[1..];
      ItemText(f);
      Assoc(Encode(fixed), ",", Render(f));
      Assoc(Encode(fixed), "," + Render(f), Listed(headers[1..]));
    }
  }

  lemma ItemText(f: Field)
    ensures "," + f.name + ":" + f.value == "," + Render(f)
  {
  }

  /** The three texts, word for word. */
  lemma EarlyMediaText(callId: string, headers: seq<Field>)
    ensures Encode(EarlyMediaFields(callId, headers)) == "call_id:" + callId + Listed(headers)
  {
    EncodeListed([Field("call_id", callId)], headers);
    IdText(callId);
  }

  lemma AnswerText(callId: string, headers: seq<Field>)
    ensures Encode(AnswerFields(callId, headers)) == "call_id:" + callId + ",type:outgoing" + Listed(headers)
  {
    var id, kind := Field("call_id", callId), Field("type", "outgoing");
    EncodeAppend([id], kind);
    EncodeListed([id, kind], headers);
    assert [id] + [kind] == [id, kind];
    IdText(callId);
    Assoc("call_id:" + callId, ",", Render(kind));
    assert "," + Render(kind) == ",type:outgoing";
  }

  lemma OfferText(callId: string, to: string, from: string, headers: seq<Field>)
    ensures Encode(OfferFields(callId, to, from, headers)) ==
      "call_id:" + callId + ",to:" + to + ",from:" + from + Listed(headers)
  {
    var id, called, caller := Field("call_id", callId), Field("to", to), Field("from", from);
    EncodeListed([id, called, caller], headers);
    assert [id] + [called] == [id, called] && [id, called] + [caller] == [id, called, caller];
    EncodeAppend([id], called);
    EncodeAppend([id, called], caller);
    IdText(callId);
    PartyText("call_id:" + callId, to, from);
  }

  lemma IdText(callId: string)
    ensures Encode([Field("call_id", callId)]) == "call_id:" + callId
  {
    assert "call_id" + ":" == "call_id:";
  }

  lemma PartyText(start: string, to: string, from: string)
    ensures start + "," + Render(Field("to", to)) == start + ",to:" + to
    ensures start + ",to:" + to + "," + Render(Field("from", from)) == start + ",to:" + to + ",from:" + from
  {
    NamedText(start, "to", ",to:", to);
    NamedText(start + ",to:" + to, "from", ",from:", from);
  }

  lemma NamedText(start: string, name: string, written: string, value: string)
    requires written == "," + name + ":"
    ensures start + "," + Render(Field(name, value)) == start + written + value
  {
  }

  // ---------------------------------------------------------------- reading back

  /** The pieces of `s` between commas. */
  function Split(s: string): (pieces: seq<string>)
    ensures |pieces| == Commas(s) + 1
    decreases |s|
  {
    var i := IndexOf(s, ',');
    CommasAtFirst(s);
    if i == |s| then [s] else [s[..i]] + Split(s[i + 1..])
  }

  function Commas(s: string): nat {
    if s == "" then 0 else (if s[0] == ',' then 1 else 0) + Commas(s[1..])
  }

  /** A piece is a name up to its first colon and a value after it. */
  function ReadField(piece: string): Field {
    var i := IndexOf(piece, ':');
    if i == |piece| then Field(piece, "") else Field(piece[..i], piece[i + 1..])
  }

  function Decode(s: string): (fields: seq<Field>)
    ensures |fields| == Commas(s) + 1
  {
    var pieces := Split(s);
    seq(|pieces|, i requires 0 <= i < |pieces| => ReadField(pieces[i]))
  }

  predicate Clean(f: Field) {
    ',' !in f.name && ':' !in f.name && ',' !in f.value
  }

  predicate AllClean(fields: seq<Field>) {
    forall f :: f in fields ==> Clean(f)
  }

  lemma {:induction false} CommasAppend(a: string, b: string)
    ensures Commas(a + b) == Commas(a) + Commas(b)
  {
    if a == "" {
      assert a + b == b;
    } else {
      assert (a + b)[1..] == a[1..] + b;
      CommasAppend(a[1..], b);
    }
  }

  lemma {:induction false} NoCommas(s: string)
    ensures Commas(s) == 0 <==> ',' !in s
  {
    if s != "" {
      NoCommas(s[1..]);
      assert s == [s[0]] + s[1..];
    }
  }

  lemma CommasAtFirst(s: string)
    ensures var i := IndexOf(s, ',');
      Commas(s) == if i == |s| then 0 else 1 + Commas(s[i + 1..])
  {
    var i := IndexOf(s, ',');
    NoCommas(s[..i]);
    if i == |s| {
      assert s[..i] == s;
    } else {
      SplitAt(s, i);
      CommasAppend(s[..i], [s[i]] + s[i + 1..]);
      assert ([s[i]] + s[i + 1..])[1..] == s[i + 1..];
    }
  }

  lemma SplitAt(s: string, i: nat)
    requires i < |s|
    ensures s[..i] + ([s[i]] + s[i + 1..]) == s
  {
  }

  /** Commas inside the fields, beyond the separators. */
  function StrayCommas(fields: seq<Field>): nat {
    if fields == [] then 0 else Commas(Render(fields[0])) + StrayCommas(fields[1..])
  }

  lemma {:induction false} EncodedCommas(fields: seq<Field>)
    requires fields != []
    ensures Commas(Encode(fields)) == |fields| - 1 + StrayCommas(fields)
  {
    if |fields| > 1 {
      EncodedCommas(fields[1..]);
      CommasAppend(Render(fields[0]) + ",", Encode(fields[1..]));
      CommasAppend(Render(fields[0]), ",");
    }
  }

  lemma {:induction false} NoStrayCommas(fields: seq<Field>, i: nat)
    requires StrayCommas(fields) == 0 && i < |fields|
    ensures ',' !in Render(fields[i])
  {
    if i == 0 {
      NoCommas(Render(fields[0]));
    } else {
      NoStrayCommas(fields[1..], i - 1);
    }
  }

  lemma FirstAfter(a: string, c: char, b: string)
    requires c !in a
    ensures IndexOf(a + [c] + b, c) == |a|
  {
    var s := a + [c] + b;
    assert s[|a|] == c && s[..|a|] == a;
    assert forall k :: 0 <= k < |a| ==> s[k] == a[k];
  }

  /** Comma-free fields split back into exactly their rendered texts. */
  lemma {:induction false} SplitEncode(fields: seq<Field>)
    requires fields != []
    requires forall f :: f in fields ==> ',' !in Render(f)
    ensures |Split(Encode(fields))| == |fields|
    ensures forall i :: 0 <= i < |fields| ==> Split(Encode(fields))[i] == Render(fields[i])
  {
    var r := Render(fields[0]);
    if |fields| == 1 {
      assert IndexOf(r, ',') == |r|;
    } else {
      var tail := Encode(fields[1..]);
      SplitEncode(fields[1..]);
      FirstAfter(r, ',', tail);
      assert Encode(fields) == r + [','] + tail;
      assert Encode(fields)[|r| + 1..] == tail;
    }
  }

  lemma ReadRendered(f: Field)
    ensures ReadField(Render(f)) == f <==> ':' !in f.name
  {
    var piece := Render(f);
    var i := IndexOf(piece, ':');
    if ':' !in f.name {
      FirstAfter(f.name, ':', f.value);
      assert piece == f.name + [':'] + f.value;
    } else {
      var k :| 0 <= k < |f.name| && f.name[k] == ':';
      assert piece[k] == ':';
      assert i <= k;
    }
  }

  /** The text reads back as the fields it was built from exactly when no name holds a comma
      or a colon and no value holds a comma. */
  lemma RoundTrip(fields: seq<Field>)
    requires fields != []
    ensures Decode(Encode(fields)) == fields <==> AllClean(fields)
  {
    if forall f :: f in fields ==> ',' !in Render(f) {
      SplitEncode(fields);
      forall i | 0 <= i < |fields|
        ensures Decode(Encode(fields))[i] == fields[i] <==> Clean(fields[i])
      {
        ReadRendered(fields[i]);
        CommaFree(fields[i]);
      }
    } else {
      var f :| f in fields && ',' in Render(f);
      CommaFree(f);
      EncodedCommas(fields);
      if StrayCommas(fields) == 0 {
        var i :| 0 <= i < |fields| && fields[i] == f;
        NoStrayCommas(fields, i);
      }
    }
  }

  lemma CommaFree(f: Field)
    ensures ',' !in Render(f) <==> ',' !in f.name && ',' !in f.value
  {
  }

  /** Two calls whose identifiers and headers are clean never share a text, in any format. */
  lemma FormatsAreInjective(a: seq<Field>, b: seq<Field>)
    requires a != [] && b != [] && AllClean(a) && AllClean(b)
    ensures Encode(a) == Encode(b) <==> a == b
  {
    RoundTrip(a);
    RoundTrip(b);
  }

  /** The clean condition is needed: a comma in a header value forges a second header. */
  lemma CommaForgesHeader(callId: string)
    ensures var honest := AnswerFields(callId, [Field("X-A", "1"), Field("X-B", "2")]);
      var forged := AnswerFields(callId, [Field("X-A", "1,X-B:2")]);
      honest != forged && Encode(honest) == Encode(forged)
  {
    var start := [Field("call_id", callId), Field("type", "outgoing")];
    EncodeAppend(start, Field("X-A", "1"));
    EncodeAppend(start + [Field("X-A", "1")], Field("X-B", "2"));
    EncodeAppend(start, Field("X-A", "1,X-B:2"));
    assert AnswerFields(callId, [Field("X-A", "1"), Field("X-B", "2")]) ==
      start + [Field("X-A", "1")] + [Field("X-B", "2")];
    assert ",X-A:1" + ",X-B:2" == ",X-A:1,X-B:2";
  }
}
