/** The parts of `src/lib/gemini.ts` that do not talk to the network: the
    model text taken out of the reply, the markdown-fence clean-up before
    `JSON.parse`, the `{...}` fallback, the normalisation of the parsed
    object against the offered outcomes, and the options list put in the
    prompt. `JSON.parse` itself is a parameter: it maps a text to the four
    fields the code reads, or to `None` when it throws. */
module Gemini {
  import opened Wrappers
  import opened Text
  import opened Seqs
  import opened LeadTypes

  // ----- the text of the reply -----

  /** A part whose `text` is truthy: present and not empty. */
  predicate HasText(o: Option<string>)
  {
    o.Some? && o.value != []
  }

  /** `p?.text` read as a string. */
  function TextOf(o: Option<string>): string
  {
    o.GetOr("")
  }

  /** `candidates[0].content.parts.map(p => p?.text).filter(Boolean)
      .join("\n")`; `None` when the path is missing, and empty exactly when
      no part has a truthy text. */
  function ModelText(parts: Option<seq<Option<string>>>): (r: Option<string>)
    ensures parts.None? <==> r.None?
    ensures parts.Some? ==> (r.value == [] <==> forall k :: 0 <= k < |parts.value| ==> !HasText(parts.value[k]))
  {
    match parts
    case None => None
    case Some(ps) =>
      TextsNone(ps);
      var ts := Texts(ps);
      assert ts != [] ==> ts[0] != [] && StartsWith(Join(ts, "\n"), ts[0]);
      Some(Join(ts, "\n"))
  }

  /** The truthy `text` fields, in order. */
  function Texts(ps: seq<Option<string>>): (r: seq<string>)
    ensures forall k :: 0 <= k < |r| ==> r[k] != []
    ensures forall t :: t in r <==> Some(t) in ps && t != []
  {
    if ps == [] then []
    else (if HasText(ps[0]) then [ps[0].value] else []) + Texts(ps[1..])
  }

  /** `Texts` is `map` then `filter(Boolean)`: the truthy texts, each as
      often as it occurs and in the parts' order. */
  lemma {:induction false} TextsFilter(ps: seq<Option<string>>)
    ensures Texts(ps) == Map(TextOf, Filter(HasText, ps))
    decreases |ps|
  {
    if ps != [] {
      TextsFilter(ps[1..]);
      var rest := Filter(HasText, ps[1..]);
      if HasText(ps[0]) {
        assert Filter(HasText, ps) == [ps[0]] + rest;
        MapCons(TextOf, ps[0], rest);
      } else {
        assert Filter(HasText, ps) == rest;
      }
    }
  }

  /** No text is left exactly when no part has a truthy text. */
  lemma TextsNone(ps: seq<Option<string>>)
    ensures Texts(ps) == [] <==> forall k :: 0 <= k < |ps| ==> !HasText(ps[k])
  {
    var r := Texts(ps);
    if r != [] {
      assert r[0] in r;
      var k :| 0 <= k < |ps| && ps[k] == Some(r[0]);
      assert HasText(ps[k]);
    }
    if k :| 0 <= k < |ps| && HasText(ps[k]) {
      assert ps[k] == Some(ps[k].value) && ps[k] in ps;
      assert ps[k].value in r;
    }
  }

  // ----- fences -----

  const FENCE: string := "```"

  /** `/^```json\s*\/i` matches: the fence and "json" in any letter case. */
  predicate JsonFenceAt(s: string)
  {
    |s| >= 7 && s[..3] == FENCE && ToLower(s[3..7]) == "json"
  }

  /** `.replace(/^```json\s*\/i, "")`. */
  function StripJsonFence(s: string): (r: string)
    ensures |r| <= |s|
  {
    if JsonFenceAt(s) then TrimStart(s[7..]) else s
  }

  /** `.replace(/^```\s*\/i, "")`. */
  function StripFence(s: string): (r: string)
    ensures |r| <= |s|
  {
    if StartsWith(s, FENCE) then TrimStart(s[3..]) else s
  }

  /** `.replace(/```$/i, "")`: only at the very end of the text. */
  function StripTrailingFence(s: string): (r: string)
    ensures |r| <= |s|
  {
    if EndsWith(s, FENCE) then s[..|s| - 3] else s
  }

  /** The text `tryParseJson` hands to `JSON.parse`. */
  function CleanFences(text: string): (r: string)
    ensures Trimmed(r) && |r| <= |text|
  {
    Trim(StripTrailingFence(StripFence(StripJsonFence(Trim(text)))))
  }

  /** Text without fences is only trimmed. */
  lemma CleanUnfenced(text: string)
    requires !StartsWith(Trim(text), FENCE) && !EndsWith(Trim(text), FENCE)
    ensures CleanFences(text) == Trim(text)
  {
    TrimIdempotent(text);
  }

  /** The body of a fenced block: the payload, a newline, the closing fence. */
  function FenceBody(p: string): string
  {
    p + "\n" + FENCE
  }

  /** A payload wrapped in a "```json" fence (any case of "json") comes
      back as it was. */
  lemma CleanJsonFenced(tag: string, p: string)
    requires |tag| == 4 && ToLower(tag) == "json"
    requires Trimmed(p) && p != [] && !StartsWith(p, FENCE)
    ensures CleanFences(FENCE + tag + "\n" + FenceBody(p)) == p
  {
    var q := FenceBody(p);
    var s := FENCE + tag + "\n" + q;
    OuterTrimmed(FENCE + tag + "\n", q);
    assert s[..3] == FENCE && s[3..7] == tag;
    assert s[7..] == "\n" + q;
    SkipNewline(q);
    assert StripJsonFence(s) == q;
    BodyNotFenced(p);
    assert StripFence(q) == q;
    StripBody(p);
  }

  /** A payload wrapped in a bare "```" fence comes back as it was. */
  lemma CleanBareFenced(p: string)
    requires Trimmed(p) && p != []
    ensures CleanFences(FENCE + "\n" + FenceBody(p)) == p
  {
    var q := FenceBody(p);
    var s := FENCE + "\n" + q;
    OuterTrimmed(FENCE + "\n", q);
    assert s[3] == '\n' && LowerChar(s[3]) != 'j';
    assert !JsonFenceAt(s);
    assert s[..3] == FENCE && s[3..] == "\n" + q;
    SkipNewline(q);
    assert StripFence(s) == q;
    StripBody(p);
  }

  /** A text opening with a fence and ending with the body is already trimmed. */
  lemma OuterTrimmed(head: string, q: string)
    requires |head| >= 3 && head[..3] == FENCE && EndsWith(q, FENCE)
    ensures Trim(head + q) == head + q
  {
    var s := head + q;
    assert s[0] == head[0] == '`';
    assert s[|s| - 1] == q[|q| - 1] == '`';
  }

  /** `TrimStart` drops one newline in front of the body. */
  lemma SkipNewline(q: string)
    requires q != [] && !IsSpace(q[0])
    ensures TrimStart("\n" + q) == q
  {
    assert ("\n" + q)[1..] == q;
  }

  /** The body does not open with a fence when the payload does not. */
  lemma BodyNotFenced(p: string)
    requires p != [] && !StartsWith(p, FENCE)
    ensures !StartsWith(FenceBody(p), FENCE)
  {
    var q := FenceBody(p);
    if |p| >= 3 {
      assert q[..3] == p[..3];
    } else {
      assert q[|p|] == '\n';
    }
  }

  /** The closing fence goes and the trim takes the newline with it. */
  lemma StripBody(p: string)
    requires Trimmed(p) && p != []
    ensures Trim(StripTrailingFence(FenceBody(p))) == p
  {
    var q := FenceBody(p);
    assert q[..|q| - 3] == p + "\n";
    assert StripTrailingFence(q) == p + "\n";
    TrimNewlineAfter(p);
  }

  /** A trimmed non-empty text followed by a newline trims back to itself. */
  lemma TrimNewlineAfter(p: string)
    requires Trimmed(p) && p != []
    ensures Trim(p + "\n") == p
  {
    var s := p + "\n";
    assert s[..|p|] == p;
    assert TrimStart(s) == s;
    assert s[..|s| - 1] == p;
  }

  // ----- the `{...}` fallback -----

  /** `text.match(/\{[\s\S]*\}/)`: from the first `{` to the last `}`, when
      that `}` comes after it. */
  function BraceSpan(text: string): Option<string>
  {
    match FirstIndexOf(text, '{')
    case None => None
    case Some(i) =>
      match LastIndexOf(text, '}')
      case None => None
      case Some(j) => if i < j then Some(text[i..j + 1]) else None
  }

  function FirstIndexOf(s: string, c: char): (r: Option<nat>)
    ensures r.None? <==> forall k :: 0 <= k < |s| ==> s[k] != c
    ensures r.Some? ==> r.value < |s| && s[r.value] == c && forall k :: 0 <= k < r.value ==> s[k] != c
  {
    if s == [] then None
    else if s[0] == c then Some(0)
    else match FirstIndexOf(s[1..], c)
      case None => None
      case Some(k) => Some(k + 1)
  }

  function LastIndexOf(s: string, c: char): (r: Option<nat>)
    ensures r.None? <==> forall k :: 0 <= k < |s| ==> s[k] != c
    ensures r.Some? ==> r.value < |s| && s[r.value] == c && forall k :: r.value < k < |s| ==> s[k] != c
  {
    if s == [] then None
    else if s[|s| - 1] == c then Some(|s| - 1)
    else LastIndexOf(s[..|s| - 1], c)
  }

  /** No `{` comes before a `}`. */
  predicate NoBracePair(text: string)
  {
    forall a, b :: 0 <= a < b < |text| ==> !(text[a] == '{' && text[b] == '}')
  }

  /** The span is found exactly when some `{` comes before some `}`; it then
      runs from the first `{` to the last `}`. */
  lemma BraceSpanSpec(text: string) returns (i: nat, j: nat)
    ensures BraceSpan(text).None? <==> NoBracePair(text)
    ensures BraceSpan(text).Some? ==>
      i < j < |text| && BraceSpan(text).value == text[i..j + 1] &&
      text[i] == '{' && text[j] == '}' &&
      (forall k :: 0 <= k < i ==> text[k] != '{') &&
      (forall k :: j < k < |text| ==> text[k] != '}')
  {
    i, j := 0, 0;
    var fi := FirstIndexOf(text, '{');
    var lj := LastIndexOf(text, '}');
    if fi.Some? && lj.Some? {
      i, j := fi.value, lj.value;
      if i >= j {
        forall a, b | 0 <= a < b < |text|
          ensures !(text[a] == '{' && text[b] == '}')
        {
          assert text[a] == '{' ==> i <= a;
          assert text[b] == '}' ==> b <= j;
        }
      }
    }
  }

  // ----- normalisation -----

  /** A field of the parsed object: a string or anything else. */
  datatype Field = Str(s: string) | NotStr

  /** The four fields the code reads from the parsed object. */
  datatype Reply = Reply(resultadoSugerido: Field, resumo: Field, proximoPasso: Field, confianca: Field)

  /** `"baixa" | "media" | "alta"`. */
  datatype Confianca = Baixa | Media | Alta

  function ConfiancaValue(c: Confianca): string
  {
    match c
    case Baixa => "baixa"
    case Media => "media"
    case Alta => "alta"
  }

  /** `GeminiInterpretation`. */
  datatype Interpretation = Interpretation(resultadoSugerido: Option<string>, resumo: string, proximoPasso: Option<string>, confianca: Confianca)

  /** The confidence: one of the three values, otherwise "media". */
  function ConfiancaOf(f: Field): (c: Confianca)
    ensures f.Str? && f.s in ["baixa", "media", "alta"] ==> ConfiancaValue(c) == f.s
    ensures !(f.Str? && f.s in ["baixa", "media", "alta"]) ==> c == Media
  {
    if f == Str("alta") then Alta
    else if f == Str("media") then Media
    else if f == Str("baixa") then Baixa
    else Media
  }

  /** The object the function returns: the suggestion only when it is one of
      the offered values, the summary "" and the next step null when they are
      not strings. */
  function Normalize(p: Reply, offered: seq<ResultOption>): (r: Interpretation)
    ensures r.resultadoSugerido.Some? <==> p.resultadoSugerido.Str? && p.resultadoSugerido.s in OptionValues(offered)
    ensures r.resultadoSugerido.Some? ==> r.resultadoSugerido.value == p.resultadoSugerido.s
    ensures r.resumo == if p.resumo.Str? then p.resumo.s else ""
    ensures r.proximoPasso == if p.proximoPasso.Str? then Some(p.proximoPasso.s) else None
    ensures r.confianca == ConfiancaOf(p.confianca)
  {
    var suggested :=
      if p.resultadoSugerido.Str? && p.resultadoSugerido.s in OptionValues(offered) then Some(p.resultadoSugerido.s) else None;
    Interpretation(
      suggested,
      if p.resumo.Str? then p.resumo.s else "",
      if p.proximoPasso.Str? then Some(p.proximoPasso.s) else None,
      ConfiancaOf(p.confianca))
  }

  /** The JSON form of an interpretation, as the model is asked to answer. */
  function Encode(i: Interpretation): Reply
  {
    Reply(
      if i.resultadoSugerido.Some? then Str(i.resultadoSugerido.value) else NotStr,
      Str(i.resumo),
      if i.proximoPasso.Some? then Str(i.proximoPasso.value) else NotStr,
      Str(ConfiancaValue(i.confianca)))
  }

  /** A well-formed answer passes the normalisation unchanged. */
  lemma NormalizeEncode(i: Interpretation, offered: seq<ResultOption>)
    requires i.resultadoSugerido.Some? ==> i.resultadoSugerido.value in OptionValues(offered)
    ensures Normalize(Encode(i), offered) == i
  {
  }

  /** Normalising twice changes nothing. */
  lemma NormalizeIdempotent(p: Reply, offered: seq<ResultOption>)
    ensures Normalize(Encode(Normalize(p, offered)), offered) == Normalize(p, offered)
  {
    NormalizeEncode(Normalize(p, offered), offered);
  }

  // ----- the whole reply -----

  /** Why no interpretation came back. */
  datatype GeminiError = MissingText | NoJsonFound | InvalidJson

  /** `tryParseJson` on the cleaned text, then on the cleaned `{...}` span
      when that throws. */
  function ParseReply(text: string, parse: string -> Option<Reply>): (r: Result<Reply, GeminiError>)
    ensures r != Err(MissingText)
    ensures r.Err? ==> parse(CleanFences(text)).None?
    ensures r == Err(NoJsonFound) <==> parse(CleanFences(text)).None? && BraceSpan(text).None?
    ensures r.Ok? <==>
      (parse(CleanFences(text)).Some? ||
       (BraceSpan(text).Some? && parse(CleanFences(BraceSpan(text).value)).Some?))
    ensures r.Ok? ==>
      r.value == (if parse(CleanFences(text)).Some? then parse(CleanFences(text)).value
                  else parse(CleanFences(BraceSpan(text).value)).value)
  {
    match parse(CleanFences(text))
    case Some(p) => Ok(p)
    case None =>
      match BraceSpan(text)
      case None => Err(NoJsonFound)
      case Some(span) =>
        match parse(CleanFences(span))
        case None => Err(InvalidJson)
        case Some(p) => Ok(p)
  }

  /** From the reply's parts to the interpretation: the text must be
      non-empty; the parsed object is then normalised. */
  function Interpret(parts: Option<seq<Option<string>>>, parse: string -> Option<Reply>, offered: seq<ResultOption>): Result<Interpretation, GeminiError>
  {
    var text := ModelText(parts);
    if text.None? || text.value == [] then Err(MissingText)
    else match ParseReply(text.value, parse)
      case Err(e) => Err(e)
      case Ok(p) => Ok(Normalize(p, offered))
  }

  /** The error for a missing text comes back exactly when the reply has
      no parts path or none of its parts has a truthy text. */
  lemma InterpretMissingText(parts: Option<seq<Option<string>>>, parse: string -> Option<Reply>, offered: seq<ResultOption>)
    ensures Interpret(parts, parse, offered) == Err(MissingText) <==>
      parts.None? || forall k :: 0 <= k < |parts.value| ==> !HasText(parts.value[k])
  {
  }

  /** "No JSON" means: the cleaned text does not parse and holds no `{...}`. */
  lemma InterpretNoJson(parts: Option<seq<Option<string>>>, parse: string -> Option<Reply>, offered: seq<ResultOption>)
    ensures Interpret(parts, parse, offered) == Err(NoJsonFound) ==>
      ModelText(parts).Some? && parse(CleanFences(ModelText(parts).value)).None? && NoBracePair(ModelText(parts).value)
  {
    var text := ModelText(parts);
    if text.None? || text.value == [] {
      assert Interpret(parts, parse, offered) == Err(MissingText);
    } else {
      var p := ParseReply(text.value, parse);
      if p == Err(NoJsonFound) {
        assert Interpret(parts, parse, offered) == Err(NoJsonFound);
        var i, j := BraceSpanSpec(text.value);
      } else if p.Err? {
        assert Interpret(parts, parse, offered) == Err(p.error);
      }
    }
  }

  /** Whatever the model answers, an interpretation suggests only one of the
      offered outcomes. */
  lemma InterpretSuggestsOffered(parts: Option<seq<Option<string>>>, parse: string -> Option<Reply>, offered: seq<ResultOption>)
    ensures Interpret(parts, parse, offered).Ok? ==>
      var r := Interpret(parts, parse, offered).value;
      r.resultadoSugerido.Some? ==> r.resultadoSugerido.value in OptionValues(offered)
  {
    var i := Interpret(parts, parse, offered);
    if i.Ok? {
      var text := ModelText(parts);
      assert text.Some? && text.value != [];
      var p := ParseReply(text.value, parse);
      assert p.Ok? && i.value == Normalize(p.value, offered);
    }
  }

  // ----- the options list -----

  /** `- value: V | label: L`. */
  function OptionLine(o: ResultOption): string
  {
    "- value: " + o.value + " | label: " + o.labelText
  }

  function OptionLines(offered: seq<ResultOption>): (r: seq<string>)
    ensures |r| == |offered|
    ensures forall k :: 0 <= k < |offered| ==> r[k] == OptionLine(offered[k])
  {
    if offered == [] then [] else [OptionLine(offered[0])] + OptionLines(offered[1..])
  }

  /** The list in the prompt: one line per offered outcome. */
  function OptionsList(offered: seq<ResultOption>): string
  {
    Join(OptionLines(offered), "\n")
  }

  predicate NoNewline(s: string)
  {
    forall k :: 0 <= k < |s| ==> s[k] != '\n'
  }

  /** `s.split("\n")`. */
  function Lines(s: string): (r: seq<string>)
    ensures |r| >= 1
  {
    if s == [] then [[]]
    else
      var rest := Lines(s[1..]);
      if s[0] == '\n' then [[]] + rest else [[s[0]] + rest[0]] + rest[1..]
  }

  lemma {:induction false} LinesNoNewline(s: string)
    requires NoNewline(s)
    ensures Lines(s) == [s]
    decreases |s|
  {
    if s != [] {
      LinesNoNewline(s[1..]);
      assert [s[0]] + s[1..] == s;
    }
  }

  lemma {:induction false} LinesCons(a: string, b: string)
    requires NoNewline(a)
    ensures Lines(a + "\n" + b) == [a] + Lines(b)
    decreases |a|
  {
    var s := a + "\n" + b;
    if a == [] {
      assert s == "\n" + b && s[1..] == b;
    } else {
      assert s[1..] == a[1..] + "\n" + b;
      LinesCons(a[1..], b);
      assert [a[0]] + a[1..] == a;
    }
  }

  /** Splitting the joined lines gives them back, when none holds a newline. */
  lemma {:induction false} LinesJoin(ls: seq<string>)
    requires ls != []
    requires forall k :: 0 <= k < |ls| ==> NoNewline(ls[k])
    ensures Lines(Join(ls, "\n")) == ls
    decreases |ls|
  {
    if |ls| == 1 {
      LinesNoNewline(ls[0]);
    } else {
      LinesJoin(ls[1..]);
      LinesCons(ls[0], Join(ls[1..], "\n"));
      assert [ls[0]] + ls[1..] == ls;
    }
  }

  /** The prompt's list has exactly one line per offered outcome, in order,
      as long as no value or label holds a newline. */
  lemma OptionsListLines(offered: seq<ResultOption>)
    requires offered != []
    requires forall k :: 0 <= k < |offered| ==> NoNewline(offered[k].value) && NoNewline(offered[k].labelText)
    ensures Lines(OptionsList(offered)) == OptionLines(offered)
    ensures |Lines(OptionsList(offered))| == |offered|
  {
    var ls := OptionLines(offered);
    forall k | 0 <= k < |ls|
      ensures NoNewline(ls[k])
    {
      var o := offered[k];
      assert ls[k] == "- value: " + o.value + " | label: " + o.labelText;
    }
    LinesJoin(ls);
  }
}
