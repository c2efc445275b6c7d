/**
 * The fixed data of the integration: the poll budget, the operation identifiers the
 * caller may send, the domain taxonomy of the remote service and the partial table
 * that maps an operation identifier to a domain.
 */
module Constants {
  import opened Wrappers

  /** Number of status requests the poll loop makes before it gives up. */
  const MaxAttempts: nat := 30
  /** Milliseconds the poll loop sleeps after a status that is not "completed". */
  const RetryDelay: nat := 4000

  datatype Operation =
    | ResumeParser | InvoiceParser | PresentationParser | FormFilling
    | ImageCataloging | ImageCaptioning | FileList | FileUpload
    | GithubAgent | LinkedinAgent | MarketResearchAgent | WebGeneration
    | AudioTranscription | ImageEmbedding | DocumentEmbedding
    | Get | Post

  /** The string an operation is sent as. */
  function Identifier(op: Operation): string {
    match op
    case ResumeParser => "resumeParser"
    case InvoiceParser => "invoiceParser"
    case PresentationParser => "presentationParser"
    case FormFilling => "formFilling"
    case ImageCataloging => "imageCataloging"
    case ImageCaptioning => "imageCaptioning"
    case FileList => "fileList"
    case FileUpload => "fileUpload"
    case GithubAgent => "githubAgent"
    case LinkedinAgent => "linkedinAgent"
    case MarketResearchAgent => "marketResearchAgent"
    case WebGeneration => "webGeneration"
    case AudioTranscription => "audioTranscription"
    case ImageEmbedding => "imageEmbedding"
    case DocumentEmbedding => "documentEmbedding"
    case Get => "GET"
    case Post => "POST"
  }

  /** The operation whose identifier is `s`, if any. */
  function OperationNamed(s: string): (r: Option<Operation>)
    ensures r.Some? ==> Identifier(r.value) == s
    ensures r.None? ==> forall op :: Identifier(op) != s
  {
    if exists op :: Identifier(op) == s then
      IdentifiersDistinct();
      var op :| Identifier(op) == s;
      Some(op)
    else None
  }

  /** Reading an identifier back gives the operation it came from. */
  lemma OperationNamedIdentifier(op: Operation)
    ensures OperationNamed(Identifier(op)) == Some(op)
  {
    IdentifiersDistinct();
  }

  /** Operation identifiers are pairwise distinct. */
  lemma IdentifierInjective(a: Operation, b: Operation)
    requires Identifier(a) == Identifier(b)
    ensures a == b
  {
    OperationFingerprintOf(a);
    OperationFingerprintOf(b);
    OperationFingerprintInjective(a, b);
  }

  lemma IdentifiersDistinct()
    ensures forall a, b :: Identifier(a) == Identifier(b) ==> a == b
  {
    forall a, b | Identifier(a) == Identifier(b) ensures a == b {
      IdentifierInjective(a, b);
    }
  }

  // The lemmas from here to the table prove only that the identifier and taxonomy
  // literals are pairwise distinct. Comparing every pair of the seventeen identifiers and
  // thirty taxonomy strings directly overwhelms the solver, so each text is reduced to a
  // small fingerprint (length, last character, one chosen character), the fingerprints are
  // tabulated, and a function reading a fingerprint back to its domain shows that no two
  // share one. The domains are checked in groups of six to keep each proof small.

  /**
   * Length, last character and the character at `i` (a space when there is none) of a
   * text; two texts with different fingerprints differ.
   */
  function TextFingerprint(s: string, i: nat): (int, char, char) {
    if s == [] then (0, ' ', ' ') else (|s|, s[|s| - 1], if i < |s| then s[i] else ' ')
  }

  /** The fingerprint of each identifier, with its eighth character: together they tell the seventeen apart. */
  function OperationFingerprint(op: Operation): (int, char, char) {
    match op
    case ResumeParser => (12, 'r', 'a')
    case InvoiceParser => (13, 'r', 'P')
    case PresentationParser => (18, 'r', 'a')
    case FormFilling => (11, 'g', 'l')
    case ImageCataloging => (15, 'g', 't')
    case ImageCaptioning => (15, 'g', 'p')
    case FileList => (8, 't', 't')
    case FileUpload => (10, 'd', 'o')
    case GithubAgent => (11, 't', 'g')
    case LinkedinAgent => (13, 't', 'n')
    case MarketResearchAgent => (19, 't', 'e')
    case WebGeneration => (13, 'n', 'r')
    case AudioTranscription => (18, 'n', 'a')
    case ImageEmbedding => (14, 'g', 'b')
    case DocumentEmbedding => (17, 'g', 't')
    case Get => (3, 'T', ' ')
    case Post => (4, 'T', ' ')
  }

  lemma OperationFingerprintOf(op: Operation)
    ensures TextFingerprint(Identifier(op), 7) == OperationFingerprint(op)
  {
    if op in {ResumeParser, InvoiceParser, PresentationParser, FormFilling, ImageCataloging,
              ImageCaptioning, FileList, FileUpload, GithubAgent} {
      ParserAndFileFingerprints(op);
    } else {
      AgentAndMethodFingerprints(op);
    }
  }

  lemma ParserAndFileFingerprints(op: Operation)
    requires op in {ResumeParser, InvoiceParser, PresentationParser, FormFilling, ImageCataloging,
                    ImageCaptioning, FileList, FileUpload, GithubAgent}
    ensures TextFingerprint(Identifier(op), 7) == OperationFingerprint(op)
  {
  }

  lemma AgentAndMethodFingerprints(op: Operation)
    requires op !in {ResumeParser, InvoiceParser, PresentationParser, FormFilling, ImageCataloging,
                     ImageCaptioning, FileList, FileUpload, GithubAgent}
    ensures TextFingerprint(Identifier(op), 7) == OperationFingerprint(op)
  {
  }

  lemma OperationFingerprintInjective(a: Operation, b: Operation)
    requires OperationFingerprint(a) == OperationFingerprint(b)
    ensures a == b
  {
  }

  datatype Domain =
    | DocumentGenerative | DocumentPresentation | DocumentVisualGrounding
    | DocumentInvoice | DocumentResume | DocumentHealthInsuranceCard
    | DocumentDriversLicense | DocumentReceipt | DocumentSchemaCreation
    | DocumentPdf | DocumentFile | DocumentPdfAutofill | DocumentHardwareSpecSheet
    | AudioTranscriptionDomain
    | ImageEmbeddings | ImageCaptioningDomain
    | VideoTranscription | VideoEmbeddings | VideoGenerativeEmbeddings
    | SportsNfl | SportsNba | SportsSoccer
    | VideoTvNews | VideoTvIntelligence
    | WebEcommerceProductCatalog | WebGithubDeveloperStats | WebMarketResearch
    | SocialTwitterCard
    | DocumentMultimodalEmbeddings | DocumentMultimodalRag

  /** The taxonomy string the remote service receives for a domain. */
  function DomainValue(d: Domain): string {
    match d
    case DocumentGenerative => "document.generative"
    case DocumentPresentation => "document.presentation"
    case DocumentVisualGrounding => "document.visual-grounding"
    case DocumentInvoice => "document.invoice"
    case DocumentResume => "document.resume"
    case DocumentHealthInsuranceCard => "document.health-insurance-card"
    case DocumentDriversLicense => "document.drivers-license"
    case DocumentReceipt => "document.receipt"
    case DocumentSchemaCreation => "document.schema-creation"
    case DocumentPdf => "document.pdf"
    case DocumentFile => "document.file"
    case DocumentPdfAutofill => "document.pdf-autofill"
    case DocumentHardwareSpecSheet => "document.hardware-spec-sheet"
    case AudioTranscriptionDomain => "audio.transcription"
    case ImageEmbeddings => "image.embeddings"
    case ImageCaptioningDomain => "image.caption"
    case VideoTranscription => "video.transcription"
    case VideoEmbeddings => "video.embeddings"
    case VideoGenerativeEmbeddings => "video.generative-embeddings"
    case SportsNfl => "sports.nfl"
    case SportsNba => "sports.nba"
    case SportsSoccer => "sports.soccer"
    case VideoTvNews => "video.tv-news"
    case VideoTvIntelligence => "video.tv-intelligence"
    case WebEcommerceProductCatalog => "web.ecommerce-product-catalog"
    case WebGithubDeveloperStats => "web.github-developer-stats"
    case WebMarketResearch => "web.market-research"
    case SocialTwitterCard => "social.twitter-card"
    case DocumentMultimodalEmbeddings => "document.multimodal-embeddings"
    case DocumentMultimodalRag => "document.multimodal-rag"
  }

  /** Taxonomy strings are pairwise distinct. */
  lemma DomainValueInjective(a: Domain, b: Domain)
    requires DomainValue(a) == DomainValue(b)
    ensures a == b
  {
    DomainFingerprintOf(a);
    DomainFingerprintOf(b);
    DomainFingerprintInjective(a, b);
  }

  /** The fingerprint of each taxonomy string: together they tell the thirty apart. */
  function DomainFingerprint(d: Domain): (int, char, char) {
    match d
    case DocumentGenerative => (19, 'e', 'd')
    case DocumentPresentation => (21, 'n', 'd')
    case DocumentVisualGrounding => (25, 'g', 'd')
    case DocumentInvoice => (16, 'e', 'd')
    case DocumentResume => (15, 'e', 'd')
    case DocumentHealthInsuranceCard => (30, 'd', 'd')
    case DocumentDriversLicense => (24, 'e', 'd')
    case DocumentReceipt => (16, 't', 'd')
    case DocumentSchemaCreation => (24, 'n', 'd')
    case DocumentPdf => (12, 'f', 'd')
    case DocumentFile => (13, 'e', 'd')
    case DocumentPdfAutofill => (21, 'l', 'd')
    case DocumentHardwareSpecSheet => (28, 't', 'd')
    case AudioTranscriptionDomain => (19, 'n', 'a')
    case ImageEmbeddings => (16, 's', 'i')
    case ImageCaptioningDomain => (13, 'n', 'i')
    case VideoTranscription => (19, 'n', 'v')
    case VideoEmbeddings => (16, 's', 'v')
    case VideoGenerativeEmbeddings => (27, 's', 'v')
    case SportsNfl => (10, 'l', 's')
    case SportsNba => (10, 'a', 's')
    case SportsSoccer => (13, 'r', 's')
    case VideoTvNews => (13, 's', 'v')
    case VideoTvIntelligence => (21, 'e', 'v')
    case WebEcommerceProductCatalog => (29, 'g', 'w')
    case WebGithubDeveloperStats => (26, 's', 'w')
    case WebMarketResearch => (19, 'h', 'w')
    case SocialTwitterCard => (19, 'd', 's')
    case DocumentMultimodalEmbeddings => (30, 's', 'd')
    case DocumentMultimodalRag => (23, 'g', 'd')
  }

  /** The thirty domains in five groups of six, so that the facts about them are checked a group at a time. */
  function DomainGroup(d: Domain): nat {
    match d
    case DocumentGenerative | DocumentPresentation | DocumentVisualGrounding | DocumentInvoice | DocumentResume | DocumentHealthInsuranceCard => 0
    case DocumentDriversLicense | DocumentReceipt | DocumentSchemaCreation | DocumentPdf | DocumentFile | DocumentPdfAutofill => 1
    case DocumentHardwareSpecSheet | AudioTranscriptionDomain | ImageEmbeddings | ImageCaptioningDomain | VideoTranscription | VideoEmbeddings => 2
    case VideoGenerativeEmbeddings | SportsNfl | SportsNba | SportsSoccer | VideoTvNews | VideoTvIntelligence => 3
    case WebEcommerceProductCatalog | WebGithubDeveloperStats | WebMarketResearch | SocialTwitterCard | DocumentMultimodalEmbeddings | DocumentMultimodalRag => 4
  }

  lemma DomainFingerprintOf(d: Domain)
    ensures TextFingerprint(DomainValue(d), 0) == DomainFingerprint(d)
  {
    match DomainGroup(d)
    case 0 => FirstGroupFingerprint(d);
    case 1 => SecondGroupFingerprint(d);
    case 2 => ThirdGroupFingerprint(d);
    case 3 => FourthGroupFingerprint(d);
    case _ => FifthGroupFingerprint(d);
  }

  lemma FirstGroupFingerprint(d: Domain)
    requires DomainGroup(d) == 0
    ensures TextFingerprint(DomainValue(d), 0) == DomainFingerprint(d)
  {
  }

  lemma SecondGroupFingerprint(d: Domain)
    requires DomainGroup(d) == 1
    ensures TextFingerprint(DomainValue(d), 0) == DomainFingerprint(d)
  {
  }

  lemma ThirdGroupFingerprint(d: Domain)
    requires DomainGroup(d) == 2
    ensures TextFingerprint(DomainValue(d), 0) == DomainFingerprint(d)
  {
  }

  lemma FourthGroupFingerprint(d: Domain)
    requires DomainGroup(d) == 3
    ensures TextFingerprint(DomainValue(d), 0) == DomainFingerprint(d)
  {
  }

  lemma FifthGroupFingerprint(d: Domain)
    requires DomainGroup(d) == 4
    ensures TextFingerprint(DomainValue(d), 0) == DomainFingerprint(d)
  {
  }
  /** The domain a fingerprint belongs to, read back by comparing it with each one in turn. */
  function DomainWithFingerprint(fp: (int, char, char)): Option<Domain> {
    if fp == (19, 'e', 'd') then Some(DocumentGenerative)
    else if fp == (21, 'n', 'd') then Some(DocumentPresentation)
    else if fp == (25, 'g', 'd') then Some(DocumentVisualGrounding)
    else if fp == (16, 'e', 'd') then Some(DocumentInvoice)
    else if fp == (15, 'e', 'd') then Some(DocumentResume)
    else if fp == (30, 'd', 'd') then Some(DocumentHealthInsuranceCard)
    else if fp == (24, 'e', 'd') then Some(DocumentDriversLicense)
    else if fp == (16, 't', 'd') then Some(DocumentReceipt)
    else if fp == (24, 'n', 'd') then Some(DocumentSchemaCreation)
    else if fp == (12, 'f', 'd') then Some(DocumentPdf)
    else if fp == (13, 'e', 'd') then Some(DocumentFile)
    else if fp == (21, 'l', 'd') then Some(DocumentPdfAutofill)
    else if fp == (28, 't', 'd') then Some(DocumentHardwareSpecSheet)
    else if fp == (19, 'n', 'a') then Some(AudioTranscriptionDomain)
    else if fp == (16, 's', 'i') then Some(ImageEmbeddings)
    else if fp == (13, 'n', 'i') then Some(ImageCaptioningDomain)
    else if fp == (19, 'n', 'v') then Some(VideoTranscription)
    else if fp == (16, 's', 'v') then Some(VideoEmbeddings)
    else if fp == (27, 's', 'v') then Some(VideoGenerativeEmbeddings)
    else if fp == (10, 'l', 's') then Some(SportsNfl)
    else if fp == (10, 'a', 's') then Some(SportsNba)
    else if fp == (13, 'r', 's') then Some(SportsSoccer)
    else if fp == (13, 's', 'v') then Some(VideoTvNews)
    else if fp == (21, 'e', 'v') then Some(VideoTvIntelligence)
    else if fp == (29, 'g', 'w') then Some(WebEcommerceProductCatalog)
    else if fp == (26, 's', 'w') then Some(WebGithubDeveloperStats)
    else if fp == (19, 'h', 'w') then Some(WebMarketResearch)
    else if fp == (19, 'd', 's') then Some(SocialTwitterCard)
    else if fp == (30, 's', 'd') then Some(DocumentMultimodalEmbeddings)
    else if fp == (23, 'g', 'd') then Some(DocumentMultimodalRag)
    else None
  }

  lemma DomainFingerprintInverse(d: Domain)
    ensures DomainWithFingerprint(DomainFingerprint(d)) == Some(d)
  {
    match DomainGroup(d)
    case 0 => FirstGroupInverse(d);
    case 1 => SecondGroupInverse(d);
    case 2 => ThirdGroupInverse(d);
    case 3 => FourthGroupInverse(d);
    case _ => FifthGroupInverse(d);
  }

  lemma FirstGroupInverse(d: Domain)
    requires DomainGroup(d) == 0
    ensures DomainWithFingerprint(DomainFingerprint(d)) == Some(d)
  {
  }

  lemma SecondGroupInverse(d: Domain)
    requires DomainGroup(d) == 1
    ensures DomainWithFingerprint(DomainFingerprint(d)) == Some(d)
  {
  }

  lemma ThirdGroupInverse(d: Domain)
    requires DomainGroup(d) == 2
    ensures DomainWithFingerprint(DomainFingerprint(d)) == Some(d)
  {
  }

  lemma FourthGroupInverse(d: Domain)
    requires DomainGroup(d) == 3
    ensures DomainWithFingerprint(DomainFingerprint(d)) == Some(d)
  {
  }

  lemma FifthGroupInverse(d: Domain)
    requires DomainGroup(d) == 4
    ensures DomainWithFingerprint(DomainFingerprint(d)) == Some(d)
  {
  }
  lemma DomainFingerprintInjective(a: Domain, b: Domain)
    requires DomainFingerprint(a) == DomainFingerprint(b)
    ensures a == b
  {
    DomainFingerprintInverse(a);
    DomainFingerprintInverse(b);
  }


  /**
   * The operation-to-domain table. The source keys it by the identifier strings of the
   * operations; keying it by the operations keeps the same seven entries, and `DomainOf`
   * reads a string key through `OperationNamed`.
   */
  const OperationToDomain: map<Operation, Domain> := map[
    ResumeParser := DocumentResume,
    InvoiceParser := DocumentInvoice,
    PresentationParser := DocumentPresentation,
    FormFilling := DocumentPdfAutofill,
    ImageCaptioning := DocumentGenerative,
    GithubAgent := WebGithubDeveloperStats,
    MarketResearchAgent := WebMarketResearch
  ]

  /** `OperationToDomain[key]`: the domain of the operation `key` names, or `undefined`. */
  function DomainOf(key: string): (r: Option<Domain>)
    ensures r.Some? ==> exists op :: op in OperationToDomain && key == Identifier(op) && r.value == OperationToDomain[op]
  {
    match OperationNamed(key)
    case Some(op) => if op in OperationToDomain then Some(OperationToDomain[op]) else None
    case None => None
  }

  /** Looking up an operation's identifier finds exactly that operation's entry. */
  lemma DomainOfIdentifier(op: Operation)
    ensures DomainOf(Identifier(op)) == if op in OperationToDomain then Some(OperationToDomain[op]) else None
  {
    OperationNamedIdentifier(op);
  }

  /** The operations the table maps, in the order of its entries. */
  const MappedOperations: seq<Operation> :=
    [ResumeParser, InvoiceParser, PresentationParser, FormFilling,
     ImageCaptioning, GithubAgent, MarketResearchAgent]

  /** An operation has a domain exactly when it is one of the seven mapped operations. */
  lemma DomainOfOperation(op: Operation)
    ensures DomainOf(Identifier(op)).Some? <==> op in MappedOperations
  {
    DomainOfIdentifier(op);
  }

  /** The table's values are exactly the seven domains of its entries. */
  lemma MappedDomains()
    ensures OperationToDomain.Values == {DocumentResume, DocumentInvoice, DocumentPresentation,
      DocumentPdfAutofill, DocumentGenerative, WebGithubDeveloperStats, WebMarketResearch}
  {
    var s := {DocumentResume, DocumentInvoice, DocumentPresentation,
      DocumentPdfAutofill, DocumentGenerative, WebGithubDeveloperStats, WebMarketResearch};
    forall d | d in OperationToDomain.Values ensures d in s {
      var k :| k in OperationToDomain && OperationToDomain[k] == d;
    }
    assert OperationToDomain[ResumeParser] == DocumentResume;
    assert OperationToDomain[InvoiceParser] == DocumentInvoice;
    assert OperationToDomain[PresentationParser] == DocumentPresentation;
    assert OperationToDomain[FormFilling] == DocumentPdfAutofill;
    assert OperationToDomain[ImageCaptioning] == DocumentGenerative;
    assert OperationToDomain[GithubAgent] == WebGithubDeveloperStats;
    assert OperationToDomain[MarketResearchAgent] == WebMarketResearch;
  }

  /** The keys of the table are the seven mapped operations. */
  lemma TableHasSevenKeys()
    ensures OperationToDomain.Keys == set op | op in MappedOperations
  {
    assert OperationToDomain.Keys == {ResumeParser, InvoiceParser, PresentationParser, FormFilling,
      ImageCaptioning, GithubAgent, MarketResearchAgent};
  }

  /** The values of the table, key by key; captioning uses the generative domain, not `image.caption`. */
  lemma TableEntries(op: Operation)
    ensures op == ResumeParser ==> DomainOf(Identifier(op)) == Some(DocumentResume)
    ensures op == InvoiceParser ==> DomainOf(Identifier(op)) == Some(DocumentInvoice)
    ensures op == PresentationParser ==> DomainOf(Identifier(op)) == Some(DocumentPresentation)
    ensures op == FormFilling ==> DomainOf(Identifier(op)) == Some(DocumentPdfAutofill)
    ensures op == ImageCaptioning ==> DomainOf(Identifier(op)) == Some(DocumentGenerative)
    ensures op == ImageCaptioning ==> DomainOf(Identifier(op)) != Some(ImageCaptioningDomain)
    ensures op == GithubAgent ==> DomainOf(Identifier(op)) == Some(WebGithubDeveloperStats)
    ensures op == MarketResearchAgent ==> DomainOf(Identifier(op)) == Some(WebMarketResearch)
  {
    DomainOfIdentifier(op);
  }

  /** Operations the table leaves `undefined`; audio transcription is one although its domain exists. */
  const UnmappedOperations: set<Operation> :=
    {ImageCataloging, FileList, FileUpload, LinkedinAgent, WebGeneration,
     AudioTranscription, ImageEmbedding, DocumentEmbedding, Get, Post}

  /** The identifier of an unmapped operation looks up `undefined`. */
  lemma UnmappedKeys(op: Operation)
    requires op in UnmappedOperations
    ensures DomainOf(Identifier(op)) == None
  {
    UnmappedNotInTable(op);
    DomainOfIdentifier(op);
  }

  lemma UnmappedNotInTable(op: Operation)
    requires op in UnmappedOperations
    ensures op !in OperationToDomain
  {
  }

  /** No entry of the table uses the audio transcription domain. */
  lemma NoAudioDomain()
    ensures AudioTranscriptionDomain !in OperationToDomain.Values
  {
    MappedDomains();
  }

  /** Different keys of the table map to different domains. */
  lemma TableInjective(k1: string, k2: string)
    requires DomainOf(k1).Some? && DomainOf(k1) == DomainOf(k2)
    ensures k1 == k2
  {
    var o1, o2 := OperationNamed(k1).value, OperationNamed(k2).value;
    assert k1 == Identifier(o1) && k2 == Identifier(o2);
    EntriesInjective(o1, o2);
  }

  /** No two operations of the table share a domain. */
  lemma EntriesInjective(o1: Operation, o2: Operation)
    requires o1 in OperationToDomain && o2 in OperationToDomain
    requires OperationToDomain[o1] == OperationToDomain[o2]
    ensures o1 == o2
  {
  }
}
