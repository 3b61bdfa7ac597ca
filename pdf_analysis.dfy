/** The deterministic part of the analysis step: rejecting a PDF without
    text, building the transcript and pilot identifiers, and picking the
    per-organization result. Reading the file, the PDF parser, the clock and
    the random number generator are outside the model: their outcomes are
    parameters. */
module PdfAnalysis {
  import opened Wrappers
  import opened Text
  import opened Json
  import opened Types

  /** A thrown value: an `Error` instance with its message, or anything else. */
  datatype Thrown = ErrorValue(message: string) | NonError

  /** What reading the file and running the PDF parser produced. */
  datatype PdfRead =
    | ReadFailed                  // the file reader's `onerror`
    | ParserThrew(thrown: Thrown) // the parser (or its import) threw
    | Parsed(text: Option<string>) // the parser's `text`, absent as `None`

  const ReadErrorMessage: string := "Erro ao ler o arquivo PDF"
  const NoTextMessage: string := "Nenhum texto pôde ser extraído do PDF. Verifique o arquivo."

  /** `extractTextFromPdf`: the text is passed through unchanged unless it
      is missing, empty or whitespace only, which is rejected with a fixed
      message; reader and parser failures are passed on. */
  function ExtractText(read: PdfRead): (r: Result<string, Thrown>)
    ensures r.Success? <==> read.Parsed? && read.text.Some? && !IsBlank(read.text.value)
    ensures r.Success? ==> r.value == read.text.value
    ensures read.Parsed? && r.Failure? ==> r.error == ErrorValue(NoTextMessage)
    ensures read.ReadFailed? ==> r.error == ErrorValue(ReadErrorMessage)
    ensures read.ParserThrew? ==> r.error == read.thrown
  {
    match read
    case ReadFailed => Failure(ErrorValue(ReadErrorMessage))
    case ParserThrew(thrown) => Failure(thrown)
    case Parsed(text) =>
      if text.None? || text.value == "" || Trim(text.value) == "" then Failure(ErrorValue(NoTextMessage))
      else Success(text.value)
  }

  const TranscriptPrefix: string := "TRANSCRIPT_"

  /** `TRANSCRIPT_${Date.now()}`: the prefix, then the timestamp in decimal,
      which can be read back from the identifier. */
  function TranscriptId(now: nat): (id: string)
    ensures |id| > |TranscriptPrefix| && id[..|TranscriptPrefix|] == TranscriptPrefix
    ensures AllDigits(id[|TranscriptPrefix|..]) && DigitsValue(id[|TranscriptPrefix|..]) == now
  {
    NatToStringRoundTrip(now);
    var id := TranscriptPrefix + NatToString(now);
    assert id[|TranscriptPrefix|..] == NatToString(now);
    id
  }

  /** Distinct timestamps give distinct transcript identifiers. */
  lemma TranscriptIdInjective(a: nat, b: nat)
    requires TranscriptId(a) == TranscriptId(b)
    ensures a == b
  {
  }

  /** `Math.floor(random * 1000)` for a draw of `Math.random()`. */
  function RandomIndex(random: real): (n: nat)
    requires 0.0 <= random < 1.0
    ensures n < 1000
  {
    (random * 1000.0).Floor
  }

  /** A number below 1000 has at most three digits. */
  lemma SmallNumeral(n: nat)
    requires n < 1000
    ensures |NatToString(n)| <= 3
  {
    if n >= 10 {
      assert |NatToString(n)| == |NatToString(n / 10)| + 1;
      if n / 10 >= 10 {
        assert |NatToString(n / 10)| == |NatToString(n / 100)| + 1;
        assert n / 10 / 10 == n / 100;
      }
    }
  }

  const PilotPrefix: string := "PILOT_"

  /** The default pilot identifier for draw `n`: the prefix, then `n` padded
      with zeros to exactly three digits, whose value is `n`. */
  function DefaultPilotId(n: nat): (id: string)
    requires n < 1000
    ensures |id| == 9 && id[..6] == PilotPrefix
    ensures AllDigits(id[6..]) && DigitsValue(id[6..]) == n
  {
    SmallNumeral(n);
    NatToStringRoundTrip(n);
    var digits := NatToString(n);
    var padded := PadStart(digits, 3, '0');
    LeadingZeros(Repeat('0', |padded| - |digits|), digits);
    var id := PilotPrefix + padded;
    assert id[6..] == padded;
    id
  }

  /** `name.replace(/\s+/g, '_').toUpperCase()`. */
  function NormalizePilotName(name: string): (id: string)
    ensures NoWhitespace(id) && |id| <= |name|
    ensures id == [] <==> name == []
    ensures forall i :: 0 <= i < |id| ==> !('a' <= id[i] <= 'z')
  {
    var replaced := ReplaceWhitespaceRuns(name);
    UpperCaseProperties(replaced);
    ToUpperAscii(replaced)
  }

  lemma UpperIdempotent(s: string)
    ensures ToUpperAscii(ToUpperAscii(s)) == ToUpperAscii(s)
  {
  }

  /** A normalized name is left unchanged by normalizing it again. */
  lemma NormalizePilotNameIdempotent(name: string)
    ensures NormalizePilotName(NormalizePilotName(name)) == NormalizePilotName(name)
  {
    var id := NormalizePilotName(name);
    ReplaceWhitespaceRunsOfWordOnly(id);
    assert id == ToUpperAscii(ReplaceWhitespaceRuns(name));
    UpperIdempotent(ReplaceWhitespaceRuns(name));
  }

  /** The `pilot` name the transcript JSON supplies: the trimmed text must
      parse to an object whose `pilot` is a non-empty string. Any other
      truthy `pilot` makes `.replace` throw inside the `try`, so it supplies
      nothing, as do a missing or falsy `pilot` and a failed parse. */
  function PilotName(text: string, parse: Parser): (name: Option<string>)
    ensures name.Some? ==> name.value != "" && parse(Trim(text)).Some? && parse(Trim(text)).value.JObj?
                           && Property(parse(Trim(text)).value, "pilot") == Some(JStr(name.value))
    ensures name.None? && parse(Trim(text)).Some? ==>
              forall s :: Property(parse(Trim(text)).value, "pilot") == Some(JStr(s)) ==> s == ""
  {
    var parsed := parse(Trim(text));
    if parsed.Some? then
      match Property(parsed.value, "pilot")
      case Some(JStr(s)) => if s != "" then Some(s) else None
      case _ => None
    else None
  }

  /** The pilot identifier of the result. */
  function PilotId(text: string, parse: Parser, random: real): (id: string)
    requires 0.0 <= random < 1.0
    ensures id != []
    ensures PilotName(text, parse).None? ==>
              |id| == 9 && id[..6] == PilotPrefix && AllDigits(id[6..]) && DigitsValue(id[6..]) == RandomIndex(random)
    ensures PilotName(text, parse).Some? ==> NoWhitespace(id) && |id| <= |PilotName(text, parse).value|
  {
    match PilotName(text, parse)
    case Some(name) => NormalizePilotName(name)
    case None => DefaultPilotId(RandomIndex(random))
  }

  /** The identifier assignment of `analyzePdfWithExtraction`: the default
      is assigned first and overwritten when the transcript names a pilot. */
  method DerivePilotId(text: string, parse: Parser, random: real) returns (pilotId: string)
    requires 0.0 <= random < 1.0
    ensures pilotId == PilotId(text, parse, random)
  {
    pilotId := DefaultPilotId(RandomIndex(random));
    var parsed := parse(Trim(text));
    if parsed.Some? {
      var pilot := Property(parsed.value, "pilot");
      if pilot.Some? && Truthy(pilot.value) && pilot.value.JStr? {
        pilotId := NormalizePilotName(pilot.value.s);
      }
    }
  }

  /** Normalizing splits at a maximal whitespace run: the run becomes one
      underscore and the two sides are normalized on their own. */
  lemma NormalizePilotNameAt(a: string, w: string, b: string)
    requires a == [] || !IsWhitespace(a[|a| - 1])
    requires w != [] && AllWhitespace(w)
    requires b == [] || !IsWhitespace(b[0])
    ensures NormalizePilotName(a + w + b) == NormalizePilotName(a) + "_" + NormalizePilotName(b)
  {
    ReplaceWhitespaceRunsAt(a, w, b);
    ToUpperAsciiConcat(ReplaceWhitespaceRuns(a) + "_", ReplaceWhitespaceRuns(b));
    ToUpperAsciiConcat(ReplaceWhitespaceRuns(a), "_");
    assert ToUpperAscii("_") == "_";
  }

  /** A name without whitespace is only upper-cased. */
  lemma NormalizePilotNameOfWord(name: string)
    requires NoWhitespace(name)
    ensures NormalizePilotName(name) == ToUpperAscii(name)
  {
    ReplaceWhitespaceRunsOfWordOnly(name);
  }

  /** A named pilot gives its normalized name, anything else the default. */
  lemma PilotIdCases(text: string, parse: Parser, random: real, entries: seq<(string, Json)>, name: string)
    requires 0.0 <= random < 1.0
    ensures parse(Trim(text)) == Some(JObj(entries)) && Property(JObj(entries), "pilot") == Some(JStr(name)) && name != ""
            ==> PilotId(text, parse, random) == NormalizePilotName(name)
    ensures parse(Trim(text)).None? ==> PilotId(text, parse, random) == DefaultPilotId(RandomIndex(random))
    ensures parse(Trim(text)).Some? && !parse(Trim(text)).value.JObj?
            ==> PilotId(text, parse, random) == DefaultPilotId(RandomIndex(random))
  {
  }

  /** No whitespace and no lower-case ASCII letter. */
  predicate IsIdentifierText(s: string) {
    forall i :: 0 <= i < |s| ==> !IsWhitespace(s[i]) && !('a' <= s[i] <= 'z')
  }

  lemma DefaultPilotIdShape(n: nat)
    requires n < 1000
    ensures IsIdentifierText(DefaultPilotId(n))
  {
    var id := DefaultPilotId(n);
    assert IsIdentifierText(PilotPrefix);
    assert IsIdentifierText(id[6..]) by {
      forall i | 0 <= i < |id[6..]| ensures !IsWhitespace(id[6..][i]) && !('a' <= id[6..][i] <= 'z') {
        assert IsDigit(id[6..][i]);
      }
    }
    assert id == PilotPrefix + id[6..];
  }

  /** Either way the identifier is non-empty, has no whitespace and no
      lower-case ASCII letter. */
  lemma PilotIdShape(text: string, parse: Parser, random: real)
    requires 0.0 <= random < 1.0
    ensures PilotId(text, parse, random) != []
    ensures IsIdentifierText(PilotId(text, parse, random))
  {
    if PilotName(text, parse).None? {
      DefaultPilotIdShape(RandomIndex(random));
    }
  }

  // ---------------------------------------------------------------------
  // The per-organization results

  const Sparring: string := "SPARRING001"
  const Aerolink: string := "AEROLINK001"
  const Flysafe: string := "FLYSAFE001"

  const SparringPatterns: seq<Pattern> := [
    Pattern("Gestão de Erros e Interrupções",
      "Análise baseada no transcript extraído do PDF. Piloto demonstrou boa recuperação após interrupção no checklist, reconhecendo o erro e corrigindo o procedimento.",
      [[("Confirmação de Instruções Críticas", true)],
       [("Uso de Linguagem Objetiva e Sem Ambiguidades", true)],
       [("Execução Correta de Procedimentos de Contingência", true)]]),
    Pattern("Procedimentos Padronizados",
      "Identificada falha inicial no seguimento do checklist, mas com correção adequada após intervenção do copiloto. Necessário reforço na disciplina de procedimentos.",
      [[("Seguimento Completo de Checklists de Voo", false)],
       [("Cumprimento de Protocolos de Segurança Operacional", true)]]),
    Pattern("Comunicação Clara e Confirmada",
      "Boa comunicação entre tripulação e com ATC. Copiloto demonstrou assertividade adequada ao interromper procedimento incorreto.",
      [[("Confirmação de Entendimento Entre Piloto e Copiloto", true)],
       [("Uso de Termos Claros e Precisos", true)]])
  ]

  const AerolinkPatterns: seq<Pattern> := [
    Pattern("Coordenação e Trabalho em Equipe",
      "Excelente exemplo de CRM. Copiloto interviu adequadamente e piloto aceitou a correção de forma profissional, demonstrando boa dinâmica de equipe.",
      [[("Distribuição Clara de Tarefas Durante Operações", true)],
       [("Cooperação na Tomada de Decisões Críticas", true)]]),
    Pattern("Detecção de Alertas e Anomalias",
      "Copiloto demonstrou excelente vigilância ao detectar checklist incompleto. Comunicação imediata e efetiva da anomalia procedural.",
      [[("Identificação Rápida de Falhas Técnicas", true)],
       [("Comunicação Imediata de Alertas à Equipe", true)]])
  ]

  const FlysafePatterns: seq<Pattern> := [
    Pattern("Comunicação Clara e Confirmada",
      "Comunicação clara e profissional durante todo o procedimento. Boa coordenação com ATC e entre tripulação.",
      [[("Confirmação de Instruções Críticas", true)],
       [("Uso de Linguagem Objetiva e Sem Ambiguidades", true)]]),
    Pattern("Gestão de Erros e Interrupções",
      "Piloto reconheceu erro prontamente e aceitou correção. Boa recuperação e continuidade operacional após interrupção.",
      [[("Reconhecimento e Correção de Erros em Tempo Hábil", true)],
       [("Continuidade das Operações Apesar de Interrupções", true)]]),
    Pattern("Procedimentos Padronizados",
      "Falha inicial no seguimento do checklist, mas com correção adequada. Demonstra necessidade de maior disciplina procedural.",
      [[("Seguimento Completo de Checklists de Voo", false)],
       [("Adesão a Práticas Recomendadas", true)]])
  ]

  lemma DistinctKeys()
    ensures Sparring != Aerolink && Sparring != Flysafe && Aerolink != Flysafe
  {
    assert Sparring[0] != Aerolink[0] && Sparring[0] != Flysafe[0] && Aerolink[0] != Flysafe[0];
  }

  /** The `mockResults` object literal: its three own properties, each a
      result carrying the call's identifiers, whatever its key. */
  function MockResults(transcriptId: string, organizationId: string, pilotId: string)
    : seq<(string, AnalysisResult)>
  {
    [(Sparring, AnalysisResult(transcriptId, organizationId, pilotId, SparringPatterns)),
     (Aerolink, AnalysisResult(transcriptId, organizationId, pilotId, AerolinkPatterns)),
     (Flysafe, AnalysisResult(transcriptId, organizationId, pilotId, FlysafePatterns))]
  }

  /** The own property named `key`, if any. */
  function OwnProperty(results: seq<(string, AnalysisResult)>, key: string): (r: Option<AnalysisResult>)
    ensures r.Some? <==> exists i :: 0 <= i < |results| && results[i].0 == key
    ensures r.Some? ==> exists i :: 0 <= i < |results| && results[i] == (key, r.value)
  {
    if results == [] then None
    else if results[0].0 == key then Some(results[0].1)
    else
      var r := OwnProperty(results[1..], key);
      assert forall i :: 1 <= i < |results| ==> results[i] == results[1..][i - 1];
      r
  }

  /** `mockResults[organizationId] || mockResults['SPARRING001']` as
      intended: an own property, otherwise the `SPARRING001` one. */
  function SelectResult(results: seq<(string, AnalysisResult)>, key: string): (r: Option<AnalysisResult>)
    ensures r.Some? <==> OwnProperty(results, key).Some? || OwnProperty(results, Sparring).Some?
    ensures OwnProperty(results, key).Some? ==> r == OwnProperty(results, key)
    ensures OwnProperty(results, key).None? ==> r == OwnProperty(results, Sparring)
  {
    match OwnProperty(results, key)
    case Some(result) => Some(result)
    case None => OwnProperty(results, Sparring)
  }

  /** The result picked for `organizationId`: it always carries the call's
      own identifiers, and its patterns are those of the matching entry, or
      those of `SPARRING001` for an id without an entry. */
  function MockResult(transcriptId: string, organizationId: string, pilotId: string): (r: AnalysisResult)
    ensures r.transcriptId == transcriptId && r.organizationId == organizationId && r.pilotId == pilotId
    ensures organizationId == Aerolink ==> r.patterns == AerolinkPatterns && |r.patterns| == 2
    ensures organizationId == Flysafe ==> r.patterns == FlysafePatterns && |r.patterns| == 3
    ensures organizationId != Aerolink && organizationId != Flysafe ==> r.patterns == SparringPatterns && |r.patterns| == 3
  {
    var results := MockResults(transcriptId, organizationId, pilotId);
    DistinctKeys();
    assert results[0].0 == Sparring && results[1].0 == Aerolink && results[2].0 == Flysafe;
    SelectResult(results, organizationId).value
  }

  // ---------------------------------------------------------------------
  // The lookup as written

  /** The members every plain object inherits from `Object.prototype`. */
  const PrototypeMembers: set<string> := {
    "constructor", "hasOwnProperty", "isPrototypeOf", "propertyIsEnumerable",
    "toLocaleString", "toString", "valueOf", "__proto__",
    "__defineGetter__", "__defineSetter__", "__lookupGetter__", "__lookupSetter__"
  }

  /** What a property access on the object literal evaluates to. */
  datatype MemberValue =
    | OwnResult(result: AnalysisResult)
    | InheritedMember(name: string) // a function, or the prototype object: truthy
    | Undefined

  /** `mockResults[key]`: an own property, else an inherited member. */
  function MemberAccess(results: seq<(string, AnalysisResult)>, key: string): (v: MemberValue)
    ensures v.OwnResult? <==> OwnProperty(results, key).Some?
    ensures v.InheritedMember? <==> OwnProperty(results, key).None? && key in PrototypeMembers
  {
    match OwnProperty(results, key)
    case Some(result) => OwnResult(result)
    case None => if key in PrototypeMembers then InheritedMember(key) else Undefined
  }

  /** `mockResults[organizationId] || mockResults['SPARRING001']` as
      written: an inherited member is truthy, so it suppresses the fallback. */
  function LookupAsWritten(results: seq<(string, AnalysisResult)>, key: string): (v: MemberValue)
    ensures OwnProperty(results, key).Some? ==> v == OwnResult(OwnProperty(results, key).value)
    ensures OwnProperty(results, key).None? && key in PrototypeMembers ==> v == InheritedMember(key)
    ensures OwnProperty(results, key).None? && key !in PrototypeMembers ==> v == MemberAccess(results, Sparring)
    ensures OwnProperty(results, Sparring).Some? ==> !v.Undefined?
  {
    var v := MemberAccess(results, key);
    if v.Undefined? then MemberAccess(results, Sparring) else v
  }

  /** For an organization id such as `toString`, the lookup as written
      returns an inherited function instead of falling back to the
      `SPARRING001` result, which the intended lookup does. */
  lemma PrototypeKeyEscapesFallback(transcriptId: string, pilotId: string, key: string)
    requires key in PrototypeMembers
    ensures LookupAsWritten(MockResults(transcriptId, key, pilotId), key) == InheritedMember(key)
    ensures MockResult(transcriptId, key, pilotId).patterns == SparringPatterns
  {
    var results := MockResults(transcriptId, key, pilotId);
    assert key != Sparring && key != Aerolink && key != Flysafe;
    assert OwnProperty(results, key).None?;
  }

  /** Every id that is neither an own key nor an inherited member is served
      the same way by both lookups. */
  lemma LookupsAgreeOffPrototype(transcriptId: string, organizationId: string, pilotId: string)
    requires organizationId !in PrototypeMembers
    ensures LookupAsWritten(MockResults(transcriptId, organizationId, pilotId), organizationId)
            == OwnResult(MockResult(transcriptId, organizationId, pilotId))
  {
    var results := MockResults(transcriptId, organizationId, pilotId);
    assert results[0].0 == Sparring;
  }

  // ---------------------------------------------------------------------
  // The whole step

  /** What `analyzePdfWithExtraction` settles to; `prompt` is only logged. */
  function Analysis(read: PdfRead, organizationId: string, parse: Parser, now: nat, random: real)
    : (outcome: Result<AnalysisResult, Thrown>)
    requires 0.0 <= random < 1.0
    ensures outcome.Success? <==> read.Parsed? && read.text.Some? && !IsBlank(read.text.value)
    ensures outcome.Success? ==> outcome.value.organizationId == organizationId
                                 && outcome.value.transcriptId == TranscriptId(now)
    ensures read.ReadFailed? ==> outcome == Failure(ErrorValue(ReadErrorMessage))
    ensures read.ParserThrew? ==> outcome == Failure(read.thrown)
    ensures read.Parsed? && outcome.Failure? ==> outcome.error == ErrorValue(NoTextMessage)
  {
    match ExtractText(read)
    case Failure(thrown) => Failure(thrown)
    case Success(text) => Success(MockResult(TranscriptId(now), organizationId, PilotId(text, parse, random)))
  }

  /** `analyzePdfWithExtraction`. */
  method AnalyzePdfWithExtraction(read: PdfRead, prompt: string, organizationId: string,
                                  parse: Parser, now: nat, random: real)
    returns (outcome: Result<AnalysisResult, Thrown>)
    requires 0.0 <= random < 1.0
    ensures outcome == Analysis(read, organizationId, parse, now, random)
  {
    var extracted := ExtractText(read);
    if extracted.Failure? {
      return Failure(extracted.error);
    }
    var transcriptId := TranscriptId(now);
    var pilotId := DerivePilotId(extracted.value, parse, random);
    outcome := Success(MockResult(transcriptId, organizationId, pilotId));
  }

  /** The step succeeds exactly on non-blank text, and then the result
      names the requested organization, the timestamp and the pilot. It
      never produces the cancellation error itself: that error only comes
      out of it when the PDF parser threw it. */
  lemma AnalysisProperties(read: PdfRead, organizationId: string, parse: Parser, now: nat, random: real)
    requires 0.0 <= random < 1.0
    ensures Analysis(read, organizationId, parse, now, random).Success?
            <==> read.Parsed? && read.text.Some? && !IsBlank(read.text.value)
    ensures Analysis(read, organizationId, parse, now, random).Success? ==>
              var r := Analysis(read, organizationId, parse, now, random).value;
              && r.organizationId == organizationId
              && r.transcriptId == TranscriptId(now)
              && r.pilotId == PilotId(read.text.value, parse, random)
    ensures Analysis(read, organizationId, parse, now, random) == Failure(ErrorValue("ANALYSIS_CANCELLED"))
            ==> read == ParserThrew(ErrorValue("ANALYSIS_CANCELLED"))
  {
  }
}
