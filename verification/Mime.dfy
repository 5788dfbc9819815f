/** Finding the HTML and the plain-text body in a Gmail message's MIME tree. */
module Mime {
  import opened Option

  /** A node of the tree; a missing list of sub-parts is an empty one. */
  datatype Part = Part(mime: string, data: Option<string>, parts: seq<Part>)

  type Decoder = string -> Option<string>

  predicate IsBody(part: Part, mime: string) {
    part.mime == mime && part.data.Some?
  }

  // ---- The searches of the code ----

  /** The first HTML part at this level or below ends the search at this level, decodable or not. */
  function FindHtmlInParts(parts: seq<Part>, decode: Decoder): Option<string>
    decreases parts
  {
    if |parts| == 0 then None
    else if IsBody(parts[0], "text/html") then decode(parts[0].data.value)
    else
      var nested := FindHtmlInParts(parts[0].parts, decode);
      if nested.Some? then nested else FindHtmlInParts(parts[1..], decode)
  }

  function ExtractBodyHtml(payload: Part, decode: Decoder): Option<string> {
    if IsBody(payload, "text/html") then decode(payload.data.value)
    else FindHtmlInParts(payload.parts, decode)
  }

  /** The first plain-text part among the direct sub-parts. */
  function PlainAmong(parts: seq<Part>): (found: Option<Part>)
    ensures found.Some? ==> IsBody(found.value, "text/plain")
  {
    if |parts| == 0 then None
    else if IsBody(parts[0], "text/plain") then Some(parts[0])
    else PlainAmong(parts[1..])
  }

  function PlainInParts(parts: seq<Part>, decode: Decoder): Option<string> {
    if |parts| == 0 then None
    else if IsBody(parts[0], "text/plain") then decode(parts[0].data.value)
    else
      var nested := PlainAmong(parts[0].parts);
      if nested.Some? then decode(nested.value.data.value) else PlainInParts(parts[1..], decode)
  }

  /** A direct body is taken whatever its type. */
  function ExtractBodyText(payload: Part, decode: Decoder): Option<string> {
    if payload.data.Some? then decode(payload.data.value) else PlainInParts(payload.parts, decode)
  }

  // ---- The reference: depth-first, parents before children, left to right ----

  function PreOrder(parts: seq<Part>): seq<Part>
    decreases parts
  {
    if |parts| == 0 then [] else [parts[0]] + PreOrder(parts[0].parts) + PreOrder(parts[1..])
  }

  function FirstBody(nodes: seq<Part>, mime: string): (first: Option<Part>)
    ensures first.Some? ==> first.value in nodes && IsBody(first.value, mime)
    ensures first.None? ==> forall i :: 0 <= i < |nodes| ==> !IsBody(nodes[i], mime)
  {
    if |nodes| == 0 then None
    else if IsBody(nodes[0], mime) then Some(nodes[0])
    else FirstBody(nodes[1..], mime)
  }

  function Decoded(first: Option<Part>, decode: Decoder): Option<string>
    requires first.Some? ==> first.value.data.Some?
  {
    if first.None? then None else decode(first.value.data.value)
  }

  lemma {:induction false} FirstBodyConcat(a: seq<Part>, b: seq<Part>, mime: string)
    ensures FirstBody(a + b, mime) == if FirstBody(a, mime).Some? then FirstBody(a, mime) else FirstBody(b, mime)
  {
    if |a| == 0 {
      assert a + b == b;
    } else {
      assert (a + b)[1..] == a[1..] + b;
      FirstBodyConcat(a[1..], b, mime);
    }
  }

  // ---- What the HTML search looks at ----

  /** The trees without what the search never reaches: below an HTML part with data, and behind it on its
      level, whether it decodes or not. */
  function Reached(parts: seq<Part>): seq<Part>
    decreases parts
  {
    if |parts| == 0 then []
    else if IsBody(parts[0], "text/html") then [parts[0].(parts := [])]
    else [parts[0].(parts := Reached(parts[0].parts))] + Reached(parts[1..])
  }

  /** The first HTML part of the list that decodes. */
  function FirstReadable(nodes: seq<Part>, decode: Decoder): (text: Option<string>)
    ensures text.Some? ==> exists i :: 0 <= i < |nodes| && IsBody(nodes[i], "text/html") && text == decode(nodes[i].data.value)
    ensures text.None? ==> NoneReadable(nodes, decode)
  {
    if |nodes| == 0 then None
    else if IsBody(nodes[0], "text/html") && decode(nodes[0].data.value).Some? then decode(nodes[0].data.value)
    else FirstReadable(nodes[1..], decode)
  }

  ghost predicate NoneReadable(nodes: seq<Part>, decode: Decoder) {
    forall i :: 0 <= i < |nodes| && IsBody(nodes[i], "text/html") ==> decode(nodes[i].data.value).None?
  }

  lemma {:induction false} FirstReadableConcat(a: seq<Part>, b: seq<Part>, decode: Decoder)
    ensures FirstReadable(a + b, decode) ==
            if FirstReadable(a, decode).Some? then FirstReadable(a, decode) else FirstReadable(b, decode)
  {
    if |a| == 0 {
      assert a + b == b;
    } else {
      assert (a + b)[1..] == a[1..] + b;
      FirstReadableConcat(a[1..], b, decode);
    }
  }

  lemma PreOrderCons(node: Part, rest: seq<Part>)
    ensures PreOrder([node] + rest) == [node] + PreOrder(node.parts) + PreOrder(rest)
  {
    assert ([node] + rest)[1..] == rest;
  }

  lemma ReadableCons(node: Part, rest: seq<Part>, decode: Decoder)
    ensures
      FirstReadable(PreOrder([node] + rest), decode) ==
        if IsBody(node, "text/html") && decode(node.data.value).Some? then decode(node.data.value)
        else if FirstReadable(PreOrder(node.parts), decode).Some? then FirstReadable(PreOrder(node.parts), decode)
        else FirstReadable(PreOrder(rest), decode)
  {
    PreOrderCons(node, rest);
    FirstReadableConcat([node] + PreOrder(node.parts), PreOrder(rest), decode);
    FirstReadableConcat([node], PreOrder(node.parts), decode);
    assert FirstReadable([node][1..], decode) == None;
  }

  /** On all trees the search returns the first readable HTML part, in pre-order, of what it reaches. */
  lemma {:induction false} FindHtmlIsFirstReadable(parts: seq<Part>, decode: Decoder)
    ensures FindHtmlInParts(parts, decode) == FirstReadable(PreOrder(Reached(parts)), decode)
    decreases parts
  {
    if |parts| == 0 {
    } else if IsBody(parts[0], "text/html") {
      var node := parts[0].(parts := []);
      assert [node] + [] == [node];
      ReadableCons(node, [], decode);
    } else {
      FindHtmlIsFirstReadable(parts[0].parts, decode);
      FindHtmlIsFirstReadable(parts[1..], decode);
      ReadableCons(parts[0].(parts := Reached(parts[0].parts)), Reached(parts[1..]), decode);
    }
  }

  function DataOf(first: Option<Part>): Option<string> {
    if first.None? then None else first.value.data
  }

  lemma FirstBodyCons(node: Part, rest: seq<Part>, mime: string)
    ensures
      FirstBody(PreOrder([node] + rest), mime) ==
        if IsBody(node, mime) then Some(node)
        else if FirstBody(PreOrder(node.parts), mime).Some? then FirstBody(PreOrder(node.parts), mime)
        else FirstBody(PreOrder(rest), mime)
  {
    PreOrderCons(node, rest);
    FirstBodyConcat([node] + PreOrder(node.parts), PreOrder(rest), mime);
    FirstBodyConcat([node], PreOrder(node.parts), mime);
    assert FirstBody([node][1..], mime) == None;
  }

  /** The first HTML part of a tree is always reached. */
  lemma {:induction false} FirstHtmlIsReached(parts: seq<Part>)
    ensures DataOf(FirstBody(PreOrder(Reached(parts)), "text/html")) == DataOf(FirstBody(PreOrder(parts), "text/html"))
    decreases parts
  {
    if |parts| == 0 {
    } else {
      assert parts == [parts[0]] + parts[1..];
      FirstBodyCons(parts[0], parts[1..], "text/html");
      if IsBody(parts[0], "text/html") {
        var node := parts[0].(parts := []);
        assert [node] + [] == [node];
        FirstBodyCons(node, [], "text/html");
      } else {
        FirstHtmlIsReached(parts[0].parts);
        FirstHtmlIsReached(parts[1..]);
        FirstBodyCons(parts[0].(parts := Reached(parts[0].parts)), Reached(parts[1..]), "text/html");
      }
    }
  }

  lemma {:induction false} ReadableOrNot(nodes: seq<Part>, decode: Decoder)
    ensures
      var first := FirstBody(nodes, "text/html");
      && (first.None? ==> FirstReadable(nodes, decode).None?)
      && (Decoded(first, decode).Some? ==> FirstReadable(nodes, decode) == Decoded(first, decode))
  {
    if |nodes| == 0 {
    } else {
      ReadableOrNot(nodes[1..], decode);
    }
  }

  lemma PayloadIsOnePart(payload: Part, decode: Decoder)
    ensures ExtractBodyHtml(payload, decode) == FindHtmlInParts([payload], decode)
  {
    assert FindHtmlInParts([payload][1..], decode) == None;
  }

  /** What the extraction returns on any tree, of any depth, whatever decodes. */
  lemma HtmlIsFirstReadable(payload: Part, decode: Decoder)
    ensures ExtractBodyHtml(payload, decode) == FirstReadable(PreOrder(Reached([payload])), decode)
  {
    PayloadIsOnePart(payload, decode);
    FindHtmlIsFirstReadable([payload], decode);
  }

  /** The extraction returns the first HTML part with data in pre-order, the payload itself included,
      exactly when that part decodes, or there is none, or nothing else that is reached decodes either. */
  lemma HtmlIsFirstInPreOrder(payload: Part, decode: Decoder)
    ensures
      var first := FirstBody(PreOrder([payload]), "text/html");
      ExtractBodyHtml(payload, decode) == Decoded(first, decode) <==>
        first.None? || Decoded(first, decode).Some? || NoneReadable(PreOrder(Reached([payload])), decode)
  {
    var first := FirstBody(PreOrder([payload]), "text/html");
    var nodes := PreOrder(Reached([payload]));
    HtmlIsFirstReadable(payload, decode);
    FirstHtmlIsReached([payload]);
    ReadableOrNot(nodes, decode);
    if FirstReadable(nodes, decode).Some? {
      var i :| 0 <= i < |nodes| && IsBody(nodes[i], "text/html") && FirstReadable(nodes, decode) == decode(nodes[i].data.value);
    }
  }

  /** Nothing is returned exactly when nothing that is reached can be read. */
  lemma NoHtmlExactly(payload: Part, decode: Decoder)
    ensures ExtractBodyHtml(payload, decode).None? <==> NoneReadable(PreOrder(Reached([payload])), decode)
  {
    HtmlIsFirstReadable(payload, decode);
    var nodes := PreOrder(Reached([payload]));
    if FirstReadable(nodes, decode).Some? {
      var i :| 0 <= i < |nodes| && IsBody(nodes[i], "text/html") && FirstReadable(nodes, decode) == decode(nodes[i].data.value);
    }
  }

  /** Whatever decodes or not, an answer is always the decoded data of some HTML part of the tree. */
  lemma {:induction false} HtmlComesFromTheTree(parts: seq<Part>, decode: Decoder)
    requires FindHtmlInParts(parts, decode).Some?
    ensures exists node :: node in PreOrder(parts) && IsBody(node, "text/html")
              && decode(node.data.value) == FindHtmlInParts(parts, decode)
    decreases parts
  {
    var p := parts[0];
    assert PreOrder(parts) == [p] + PreOrder(p.parts) + PreOrder(parts[1..]);
    if IsBody(p, "text/html") {
      assert p in PreOrder(parts);
    } else if FindHtmlInParts(p.parts, decode).Some? {
      HtmlComesFromTheTree(p.parts, decode);
    } else {
      HtmlComesFromTheTree(parts[1..], decode);
    }
  }

  /** An unreadable part inside a multipart ends the search of that level only: a later part one level up
      is returned although it is not the first. */
  lemma BrokenNestedPartIsPassedOver(decode: Decoder)
    requires decode("bad").None? && decode("good").Some?
    ensures
      var bad, good := Part("text/html", Some("bad"), []), Part("text/html", Some("good"), []);
      var payload := Part("multipart/mixed", None, [Part("multipart/alternative", None, [bad]), good]);
      && ExtractBodyHtml(payload, decode) == decode("good")
      && FirstBody(PreOrder([payload]), "text/html") == Some(bad)
  {
    var bad, good := Part("text/html", Some("bad"), []), Part("text/html", Some("good"), []);
    var inner := Part("multipart/alternative", None, [bad]);
    var payload := Part("multipart/mixed", None, [inner, good]);
    assert [payload] + [] == [payload] && [bad] + [] == [bad] && [inner] + [good] == [inner, good];
    FirstBodyCons(payload, [], "text/html");
    FirstBodyCons(inner, [good], "text/html");
    FirstBodyCons(bad, [], "text/html");
    assert FindHtmlInParts([bad], decode) == None;
    assert [inner, good][1..] == [good];
    assert FindHtmlInParts([inner, good], decode) == FindHtmlInParts([good], decode);
  }

  /** On one level, an unreadable part hides a later one that could be read. */
  lemma BrokenPartHidesSibling(decode: Decoder)
    requires decode("bad").None? && decode("good").Some?
    ensures
      var parts := [Part("text/html", Some("bad"), []), Part("text/html", Some("good"), [])];
      FindHtmlInParts(parts, decode).None? && !NoneReadable(PreOrder(parts), decode)
  {
    var bad, good := Part("text/html", Some("bad"), []), Part("text/html", Some("good"), []);
    assert [bad, good] == [bad] + [good] && [good] + [] == [good];
    PreOrderCons(bad, [good]);
    PreOrderCons(good, []);
    assert PreOrder([bad, good]) == [bad, good];
  }

  // ---- Plain text ----

  /** The tree without anything deeper than two levels of parts. */
  function TwoLevels(parts: seq<Part>): seq<Part> {
    if |parts| == 0 then [] else [parts[0].(parts := Leaves(parts[0].parts))] + TwoLevels(parts[1..])
  }

  function Leaves(parts: seq<Part>): seq<Part> {
    if |parts| == 0 then [] else [parts[0].(parts := [])] + Leaves(parts[1..])
  }

  lemma {:induction false} PlainAmongLeaves(parts: seq<Part>)
    ensures PreOrder(Leaves(parts)) == Leaves(parts)
    ensures PlainAmong(parts).Some? <==> FirstBody(Leaves(parts), "text/plain").Some?
    ensures PlainAmong(parts).Some? ==>
              FirstBody(Leaves(parts), "text/plain").value.data == PlainAmong(parts).value.data
  {
    if |parts| == 0 {
    } else {
      PlainAmongLeaves(parts[1..]);
      assert Leaves(parts)[1..] == Leaves(parts[1..]);
    }
  }

  lemma {:induction false} PlainIsPreOrder(parts: seq<Part>, decode: Decoder)
    ensures PlainInParts(parts, decode) == Decoded(FirstBody(PreOrder(TwoLevels(parts)), "text/plain"), decode)
  {
    if |parts| == 0 {
    } else {
      var cut := TwoLevels(parts);
      var head, rest := cut[0], cut[1..];
      assert rest == TwoLevels(parts[1..]);
      PlainIsPreOrder(parts[1..], decode);
      PlainAmongLeaves(parts[0].parts);
      FirstBodyConcat([head] + PreOrder(head.parts), PreOrder(rest), "text/plain");
      FirstBodyConcat([head], PreOrder(head.parts), "text/plain");
      assert IsBody(head, "text/plain") <==> IsBody(parts[0], "text/plain");
      assert FirstBody([head], "text/plain").Some? <==> IsBody(head, "text/plain");
    }
  }

  /** A direct body is taken whatever its type and the parts beside it, also when it does not decode. Without
      one, it is the first plain-text part with data in pre-order of the tree cut at two levels of parts. */
  lemma TextIsFirstInTwoLevels(payload: Part, decode: Decoder)
    ensures payload.data.Some? ==> ExtractBodyText(payload, decode) == decode(payload.data.value)
    ensures payload.data.None? ==>
              ExtractBodyText(payload, decode) == Decoded(FirstBody(PreOrder(TwoLevels(payload.parts)), "text/plain"), decode)
  {
    PlainIsPreOrder(payload.parts, decode);
  }

  /** How many levels of parts down the first body of the type lies, in pre-order. */
  function Level(parts: seq<Part>, mime: string): Option<nat>
    decreases parts
  {
    if |parts| == 0 then None
    else if IsBody(parts[0], mime) then Some(1)
    else
      var below := Level(parts[0].parts, mime);
      if below.Some? then Some(below.value + 1) else Level(parts[1..], mime)
  }

  lemma {:induction false} LevelOfFirst(parts: seq<Part>, mime: string)
    ensures Level(parts, mime).Some? <==> FirstBody(PreOrder(parts), mime).Some?
    ensures Level(parts, mime).Some? ==> Level(parts, mime).value > 0
    decreases parts
  {
    if |parts| == 0 {
    } else {
      assert parts == [parts[0]] + parts[1..];
      FirstBodyCons(parts[0], parts[1..], mime);
      LevelOfFirst(parts[0].parts, mime);
      LevelOfFirst(parts[1..], mime);
    }
  }

  /** One level down: a first part right there is what a look at that level finds. */
  lemma {:induction false} FirstOfLevel(parts: seq<Part>)
    requires Level(parts, "text/plain").None? || Level(parts, "text/plain").value == 1
    ensures DataOf(PlainAmong(parts)) == DataOf(FirstBody(PreOrder(parts), "text/plain"))
  {
    if |parts| == 0 {
    } else {
      assert parts == [parts[0]] + parts[1..];
      FirstBodyCons(parts[0], parts[1..], "text/plain");
      LevelOfFirst(parts[0].parts, "text/plain");
      if IsBody(parts[0], "text/plain") {
      } else {
        FirstOfLevel(parts[1..]);
      }
    }
  }

  /** A first plain-text part on the top two levels, or none at all, is what the search finds. */
  lemma {:induction false} ShallowFirstIsFound(parts: seq<Part>, decode: Decoder)
    requires Level(parts, "text/plain").None? || Level(parts, "text/plain").value <= 2
    ensures PlainInParts(parts, decode) == Decoded(FirstBody(PreOrder(parts), "text/plain"), decode)
  {
    if |parts| == 0 {
    } else {
      assert parts == [parts[0]] + parts[1..];
      FirstBodyCons(parts[0], parts[1..], "text/plain");
      LevelOfFirst(parts[0].parts, "text/plain");
      if IsBody(parts[0], "text/plain") {
      } else {
        FirstOfLevel(parts[0].parts);
        if Level(parts[0].parts, "text/plain").None? {
          ShallowFirstIsFound(parts[1..], decode);
        }
      }
    }
  }

  /** The plain-text search is described as recursive. Whatever decodes, it returns the first plain-text part
      of the whole tree, payload included, exactly in these cases. A direct body must be plain text itself, or
      carry the same data as the first plain-text part below. Without one, the first plain-text part must lie on
      the top two levels, or there is none, or the part found instead happens to carry the same data. */
  lemma TextIsRecursiveExactly(payload: Part)
    ensures
      var first := FirstBody(PreOrder([payload]), "text/plain");
      var below := FirstBody(PreOrder(payload.parts), "text/plain");
      var found := FirstBody(PreOrder(TwoLevels(payload.parts)), "text/plain");
      var level := Level(payload.parts, "text/plain");
      (forall decode :: ExtractBodyText(payload, decode) == Decoded(first, decode)) <==>
        if payload.data.Some? then payload.mime == "text/plain" || DataOf(below) == payload.data
        else level.None? || level.value <= 2 || (found.Some? && DataOf(found) == DataOf(below))
  {
    var first := FirstBody(PreOrder([payload]), "text/plain");
    assert [payload] + [] == [payload];
    FirstBodyCons(payload, [], "text/plain");
    forall decode ensures payload.data.Some? ==> ExtractBodyText(payload, decode) == decode(payload.data.value) {
      TextIsFirstInTwoLevels(payload, decode);
    }
    if payload.data.None? {
      TextInPartsExactly(payload);
    } else if forall decode :: ExtractBodyText(payload, decode) == Decoded(first, decode) {
      var same: Decoder := s => Some(s);
      assert ExtractBodyText(payload, same) == Decoded(first, same);
    }
  }

  lemma TextInPartsExactly(payload: Part)
    requires payload.data.None?
    ensures
      var first := FirstBody(PreOrder(payload.parts), "text/plain");
      var found := FirstBody(PreOrder(TwoLevels(payload.parts)), "text/plain");
      var level := Level(payload.parts, "text/plain");
      (forall decode :: ExtractBodyText(payload, decode) == Decoded(first, decode)) <==>
        level.None? || level.value <= 2 || (found.Some? && DataOf(found) == DataOf(first))
  {
    var first, found := FirstBody(PreOrder(payload.parts), "text/plain"), FirstBody(PreOrder(TwoLevels(payload.parts)), "text/plain");
    var level := Level(payload.parts, "text/plain");
    LevelOfFirst(payload.parts, "text/plain");
    forall decode ensures ExtractBodyText(payload, decode) == Decoded(found, decode) {
      TextIsFirstInTwoLevels(payload, decode);
    }
    if level.None? || level.value <= 2 {
      forall decode ensures ExtractBodyText(payload, decode) == Decoded(first, decode) {
        ShallowFirstIsFound(payload.parts, decode);
      }
    } else if forall decode :: ExtractBodyText(payload, decode) == Decoded(first, decode) {
      var same: Decoder := s => Some(s);
      assert ExtractBodyText(payload, same) == Decoded(first, same);
      assert ExtractBodyText(payload, same) == Decoded(found, same);
    }
  }

  /** The usual message with both bodies: each is found by its type. */
  lemma AlternativeMessage(text: string, html: string, decode: Decoder)
    requires decode(text).Some? && decode(html).Some?
    ensures
      var plain, rich := Part("text/plain", Some(text), []), Part("text/html", Some(html), []);
      var payload := Part("multipart/alternative", None, [plain, rich]);
      ExtractBodyText(payload, decode) == decode(text) && ExtractBodyHtml(payload, decode) == decode(html)
  {
    var plain, rich := Part("text/plain", Some(text), []), Part("text/html", Some(html), []);
    assert [plain, rich][1..] == [rich];
    assert FindHtmlInParts([], decode) == None;
    assert FindHtmlInParts([rich], decode) == decode(html);
  }

  /** The plain-text search is not recursive: a body on a third level is not found. */
  lemma ThirdLevelTextMissed(decode: Decoder)
    ensures
      var text := Part("text/plain", Some("data"), []);
      var payload := Part("multipart/mixed", None, [Part("multipart/related", None, [Part("multipart/alternative", None, [text])])]);
      && ExtractBodyText(payload, decode).None?
      && text in PreOrder([payload])
  {
    var text := Part("text/plain", Some("data"), []);
    var inner := Part("multipart/alternative", None, [text]);
    var middle := Part("multipart/related", None, [inner]);
    var payload := Part("multipart/mixed", None, [middle]);
    assert PreOrder([text]) == [text];
    assert text in PreOrder([inner]);
    assert text in PreOrder([middle]);
    assert !IsBody(inner, "text/plain") && PlainAmong([inner]).None?;
    assert PlainInParts([middle], decode).None?;
  }
}
