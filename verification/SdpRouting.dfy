/** Routing of gathered ICE candidates into the media of a parsed SDP session. */
module SdpRouting {
  import opened Text

  datatype Candidate = Candidate(mid: string, text: string)
  datatype Attribute = Attribute(name: string, value: string)
  datatype Medium = Medium(name: string, attributes: seq<Attribute>)
  datatype Session = Session(description: string, media: seq<Medium>)

  const PREFIX := "candidate:"

  /** The attribute a candidate becomes: C-string contents without the first ten characters. */
  function AttributeOf(c: Candidate): Attribute {
    var text := CString(c.text);
    Attribute("candidate", if |text| >= 10 then text[10..] else "")
  }

  /** Index of the last medium called `name`: the scan overwrites its pointer at every match. */
  function LastNamed(media: seq<Medium>, name: string): (i: Option<nat>)
    ensures i.Some? ==> i.value < |media| && media[i.value].name == name
    ensures forall j :: 0 <= j < |media| && (i.None? || i.value < j) ==> media[j].name != name
  {
    if media == [] then None
    else if media[|media| - 1].name == name then Some(|media| - 1)
    else LastNamed(media[..|media| - 1], name)
  }

  function Add(media: seq<Medium>, i: nat, a: Attribute): seq<Medium>
    requires i < |media|
  {
    media[i := media[i].(attributes := media[i].attributes + [a])]
  }

  /** Where one candidate goes when the audio and video media are at `audio` and `video`. */
  function Place(media: seq<Medium>, audio: Option<nat>, video: Option<nat>, c: Candidate): seq<Medium>
    requires audio.Some? ==> audio.value < |media|
    requires video.Some? ==> video.value < |media|
  {
    if audio.Some? && c.mid == "audio" then Add(media, audio.value, AttributeOf(c))
    else if video.Some? && c.mid == "video" then Add(media, video.value, AttributeOf(c))
    else media
  }

  function RouteOne(media: seq<Medium>, c: Candidate): seq<Medium> {
    Place(media, LastNamed(media, "audio"), LastNamed(media, "video"), c)
  }

  function RouteMedia(media: seq<Medium>, candidates: seq<Candidate>): seq<Medium>
    decreases |candidates|
  {
    if candidates == [] then media
    else RouteMedia(RouteOne(media, candidates[0]), candidates[1..])
  }

  function Route(session: Session, candidates: seq<Candidate>): Session {
    session.(media := RouteMedia(session.media, candidates))
  }

  // ---------------------------------------------------------------- contents

  /** The candidates labelled `name`, in order. */
  function Labelled(candidates: seq<Candidate>, name: string): seq<Candidate> {
    if candidates == [] then []
    else (if candidates[0].mid == name then [candidates[0]] else []) + Labelled(candidates[1..], name)
  }

  function AttributesOf(candidates: seq<Candidate>): seq<Attribute> {
    seq(|candidates|, i requires 0 <= i < |candidates| => AttributeOf(candidates[i]))
  }

  /** The medium at `i` is the one that collects the candidates of its name. */
  predicate Collects(media: seq<Medium>, i: nat) {
    i < |media| && (media[i].name == "audio" || media[i].name == "video") && LastNamed(media, media[i].name) == Some(i)
  }

  /** What medium `i` gains from a whole batch of candidates. */
  function Gain(media: seq<Medium>, candidates: seq<Candidate>, i: nat): seq<Attribute>
    requires i < |media|
  {
    if Collects(media, i) then AttributesOf(Labelled(candidates, media[i].name)) else []
  }

  predicate SameNames(a: seq<Medium>, b: seq<Medium>) {
    |a| == |b| && forall i :: 0 <= i < |a| ==> a[i].name == b[i].name
  }

  lemma LastNamedByNames(a: seq<Medium>, b: seq<Medium>, name: string)
    requires SameNames(a, b)
    ensures LastNamed(a, name) == LastNamed(b, name)
  {
    var i, j := LastNamed(a, name), LastNamed(b, name);
    if i.Some? {
      assert b[i.value].name == name;
    }
    if j.Some? {
      assert a[j.value].name == name;
    }
  }

  lemma RouteOneKeepsNames(media: seq<Medium>, c: Candidate)
    ensures SameNames(media, RouteOne(media, c))
  {
  }

  /** A send gives every medium exactly its own candidates, in order and stripped, after what
      it already carried; no other medium changes and no other candidate is placed. */
  lemma {:induction false} RouteContents(media: seq<Medium>, candidates: seq<Candidate>)
    ensures SameNames(media, RouteMedia(media, candidates))
    ensures forall i :: 0 <= i < |media| ==>
      RouteMedia(media, candidates)[i].attributes == media[i].attributes + Gain(media, candidates, i)
    decreases |candidates|
  {
    if candidates != [] {
      var c, rest := candidates[0], candidates[1..];
      var next := RouteOne(media, c);
      RouteOneKeepsNames(media, c);
      RouteContents(next, rest);
      forall i | 0 <= i < |media|
        ensures RouteMedia(media, candidates)[i].attributes == media[i].attributes + Gain(media, candidates, i)
      {
        assert candidates == [c] + rest;
        GainOfBoth(media, c, rest, i);
      }
    }
  }

  lemma GainOfBoth(media: seq<Medium>, c: Candidate, rest: seq<Candidate>, i: nat)
    requires i < |media|
    ensures SameNames(media, RouteOne(media, c))
    ensures var next := RouteOne(media, c);
      next[i].attributes + Gain(next, rest, i) == media[i].attributes + Gain(media, [c] + rest, i)
  {
    var next := RouteOne(media, c);
    RouteOneKeepsNames(media, c);
    RouteOneAt(media, c, i);
    GainByNames(media, next, rest, i);
    GainStep(media, c, rest, i);
    var own := if Collects(media, i) && c.mid == media[i].name then [AttributeOf(c)] else [];
    Assoc(media[i].attributes, own, Gain(media, rest, i));
  }

  lemma RouteOneAt(media: seq<Medium>, c: Candidate, i: nat)
    requires i < |media|
    ensures RouteOne(media, c)[i].attributes == media[i].attributes +
      if Collects(media, i) && c.mid == media[i].name then [AttributeOf(c)] else []
  {
  }

  lemma LabelledStep(c: Candidate, rest: seq<Candidate>, name: string)
    ensures AttributesOf(Labelled([c] + rest, name)) ==
      (if c.mid == name then [AttributeOf(c)] else []) + AttributesOf(Labelled(rest, name))
  {
    assert ([c] + rest)[1..] == rest;
  }

  /** What the head of a batch and its tail give is what the batch gives. */
  lemma GainStep(media: seq<Medium>, c: Candidate, rest: seq<Candidate>, i: nat)
    requires i < |media|
    ensures Gain(media, [c] + rest, i) ==
      (if Collects(media, i) && c.mid == media[i].name then [AttributeOf(c)] else []) + Gain(media, rest, i)
  {
    if Collects(media, i) {
      LabelledStep(c, rest, media[i].name);
    }
  }

  lemma GainByNames(a: seq<Medium>, b: seq<Medium>, candidates: seq<Candidate>, i: nat)
    requires SameNames(a, b) && i < |a|
    ensures Gain(a, candidates, i) == Gain(b, candidates, i)
  {
    LastNamedByNames(a, b, a[i].name);
  }

  /** Sending in two batches is sending their concatenation. */
  lemma {:induction false} RouteAppend(media: seq<Medium>, a: seq<Candidate>, b: seq<Candidate>)
    ensures RouteMedia(media, a + b) == RouteMedia(RouteMedia(media, a), b)
    decreases |a|
  {
    if a == [] {
      assert a + b == b;
    } else {
      assert (a + b)[1..] == a[1..] + b;
      RouteAppend(RouteOne(media, a[0]), a[1..], b);
    }
  }

  /** Putting the prefix back on the attribute restores the candidate line exactly when the
      line is a NUL-free `candidate:` line. */
  lemma PrefixRestores(c: Candidate)
    ensures PREFIX + AttributeOf(c).value == c.text <==> PREFIX <= c.text && '\0' !in c.text
  {
  }

  /** Whatever the line says, the attribute is a `candidate` one and its value is the line up to the
      first NUL without its first ten characters; a shorter line leaves it empty. */
  lemma AttributeDropsTen(line: string, rest: string, c: Candidate)
    requires '\0' !in line && (rest == "" || rest[0] == '\0') && c.text == line + rest
    ensures var a := AttributeOf(c);
      && a.name == "candidate"
      && (|line| >= 10 ==> |a.value| == |line| - 10 && forall k :: 0 <= k < |a.value| ==> a.value[k] == line[k + 10])
      && (|line| < 10 ==> a.value == "")
  {
    var i := IndexOf(c.text, '\0');
    assert forall k :: 0 <= k < |line| ==> c.text[k] == line[k];
    assert c.text[..|line|] == line;
  }

  // ---------------------------------------------------------------- the loops

  /** The two loops of a send: find the audio and video media, then place every candidate. */
  method RouteInto(session: Session, candidates: seq<Candidate>) returns (routed: Session)
    ensures routed == Route(session, candidates)
  {
    var media := session.media;
    var audio: Option<nat>, video: Option<nat> := None, None;
    var i := 0;
    while i < |media|
      invariant 0 <= i <= |media|
      invariant audio == LastNamed(media[..i], "audio") && video == LastNamed(media[..i], "video")
    {
      assert media[..i + 1][..i] == media[..i];
      if media[i].name == "audio" {
        audio := Some(i);
      } else if media[i].name == "video" {
        video := Some(i);
      }
      i := i + 1;
    }
    assert media[..i] == media;
    var k := 0;
    while k < |candidates|
      invariant 0 <= k <= |candidates|
      invariant audio == LastNamed(media, "audio") && video == LastNamed(media, "video")
      invariant RouteMedia(media, candidates[k..]) == RouteMedia(session.media, candidates)
    {
      var next := Place(media, audio, video, candidates[k]);
      LastNamedByNames(media, next, "audio");
      LastNamedByNames(media, next, "video");
      media := next;
      k := k + 1;
    }
    routed := session.(media := media);
  }
}
