/** The page translator: the choice of target language, the capability gate,
    the lifecycle of the in-browser model (load guard, disposal, reaction to
    coordinator events), the choice of the text nodes to translate and the
    batched replacement of their text. The model and the tokenizer are
    foreign code: only whether each is held is modelled, and one batch's
    tokenisation, generation and decoding is a function parameter. */
module Translation {
  import opened Wrappers
  import opened Strings
  import ModelCoordinator

  // ---------------------------------------------------------------------
  // Target language

  /** `LANGUAGE_MAP`: browser language prefix to NLLB code. */
  const LanguageMap: map<string, string> := map[
    "en" := "eng_Latn", "es" := "spa_Latn", "fr" := "fra_Latn", "de" := "deu_Latn",
    "it" := "ita_Latn", "pt" := "por_Latn", "zh" := "zho_Hans", "ja" := "jpn_Jpan",
    "ko" := "kor_Hang", "ru" := "rus_Cyrl", "hi" := "hin_Deva", "ar" := "arb_Arab"
  ]

  const DefaultLanguage: string := "eng_Latn"

  /** `navigator.language.split('-')[0]`. */
  function BrowserPrefix(language: string): string
  {
    Split(language, "-")[0]
  }

  /** The target language for a browser language: the map's entry for its
      prefix, English when the prefix is not mapped; always an NLLB code the
      map knows. */
  function TargetLanguageFor(language: string): (code: string)
    ensures code in LanguageMap.Values
    ensures BrowserPrefix(language) in LanguageMap ==> code == LanguageMap[BrowserPrefix(language)]
    ensures BrowserPrefix(language) !in LanguageMap ==> code == DefaultLanguage
  {
    var prefix := BrowserPrefix(language);
    if prefix in LanguageMap then LanguageMap[prefix]
    else assert LanguageMap["en"] == DefaultLanguage; DefaultLanguage
  }

  /** The prefix is the text before the first `-`, or the whole tag. */
  lemma BrowserPrefixIsLeadingSubtag(language: string)
    ensures var p := BrowserPrefix(language);
      '-' !in p && (p == language || (|p| < |language| && language[..|p| + 1] == p + "-"))
  {
    var i := IndexOf(language, "-");
    IndexOfIsFirst(language, "-");
    if i != -1 {
      var p := language[..i];
      assert '-' !in p by {
        forall j | 0 <= j < |p| ensures p[j] != '-' {
          assert !OccursAt(language, "-", j);
          assert language[j..j + 1] == [language[j]];
        }
      }
      assert language[i..i + 1] == "-";
      assert language[..i + 1] == p + "-";
    } else {
      assert '-' !in language by {
        forall j | 0 <= j < |language| ensures language[j] != '-' {
          assert !OccursAt(language, "-", j);
          assert language[j..j + 1] == [language[j]];
        }
      }
    }
  }

  // ---------------------------------------------------------------------
  // Provider state

  /** The provider's state and refs: whether a model and a tokenizer are
      held (`translatorRef` / `tokenizerRef`) and whether a load is in flight
      (`isPipelineLoadingRef`). */
  datatype TranslatorState = TranslatorState(
    isSupported: bool,
    targetLanguage: string,
    modelStatus: string,
    isActive: bool,
    hasModel: bool,
    hasTokenizer: bool,
    isLoading: bool
  )

  function Initial(): TranslatorState
  {
    TranslatorState(false, DefaultLanguage, "", false, false, false, false)
  }

  const LoadingStatus: string := "Cargando modelo de traducción..."
  const ReadyStatus: string := "Traductor listo."
  const ErrorStatus: string := "Error al cargar."

  /** `checkCapabilities`: with at least 4 GB and WebGPU the translator is
      supported and targets the browser's language; otherwise nothing changes. */
  function CapabilityCheck(s: TranslatorState, ram: real, hasWebGPU: bool, language: string): TranslatorState
  {
    if ram >= 4.0 && hasWebGPU then s.(isSupported := true, targetLanguage := TargetLanguageFor(language))
    else s
  }

  lemma CapabilityGate(ram: real, hasWebGPU: bool, language: string)
    ensures var t := CapabilityCheck(Initial(), ram, hasWebGPU, language);
      (t.isSupported <==> ram >= 4.0 && hasWebGPU)
      && (t.targetLanguage != DefaultLanguage ==> t.isSupported)
      && t.targetLanguage in LanguageMap.Values
  {
    assert DefaultLanguage == LanguageMap["en"];
  }

  /** The first half of `initTranslator`: nothing when a model is held or a
      load is in flight; otherwise the load starts. */
  function BeginLoad(s: TranslatorState): (TranslatorState, bool)
  {
    if s.hasModel || s.isLoading then (s, false)
    else (s.(isLoading := true, modelStatus := LoadingStatus), true)
  }

  /** How a load ends: the tokenizer download failed, the model download
      failed after the tokenizer was stored, or both arrived. */
  datatype LoadOutcome = TokenizerFailed | ModelFailed | Loaded

  /** The second half of `initTranslator`, after its awaits; the `finally`
      clears the in-flight flag on every outcome. */
  function FinishLoad(s: TranslatorState, outcome: LoadOutcome): TranslatorState
  {
    match outcome
    case TokenizerFailed =>
      s.(modelStatus := ErrorStatus, isSupported := false, isLoading := false)
    case ModelFailed =>
      s.(hasTokenizer := true, modelStatus := ErrorStatus, isSupported := false, isLoading := false)
    case Loaded =>
      s.(hasTokenizer := true, hasModel := true, modelStatus := ReadyStatus, isLoading := false)
  }

  /** `disposeTranslator`: releases model and tokenizer and clears the status
      only when a model is held. */
  function Dispose(s: TranslatorState): TranslatorState
  {
    if s.hasModel then s.(hasModel := false, hasTokenizer := false, modelStatus := "") else s
  }

  /** `handleCoordinatorEvent`. */
  function HandleEvent(s: TranslatorState, action: string): TranslatorState
  {
    if action == "activate-translator" then s.(isActive := true)
    else if action == "dispose-translator" then Dispose(s).(isActive := false)
    else s
  }

  lemma LoadGuard(s: TranslatorState)
    ensures (s.hasModel || s.isLoading) ==> BeginLoad(s) == (s, false)
    ensures !(s.hasModel || s.isLoading) ==> BeginLoad(s).1 && BeginLoad(s).0.isLoading
  {
  }

  /** A second call while the first load is in flight starts nothing; the
      flag is down again after the load, whatever its outcome, and a failed
      load switches translation off. */
  lemma {:induction false} OneLoadAtATime(s: TranslatorState, outcome: LoadOutcome)
    requires BeginLoad(s).1
    ensures var t := BeginLoad(s).0;
      BeginLoad(t) == (t, false)
      && !FinishLoad(t, outcome).isLoading
      && (outcome != Loaded ==> !FinishLoad(t, outcome).isSupported
                                && FinishLoad(t, outcome).modelStatus == ErrorStatus)
      && (outcome == Loaded <==> FinishLoad(t, outcome).hasModel)
  {
    assert !s.hasModel;
  }

  lemma DisposeIdempotent(s: TranslatorState)
    ensures Dispose(Dispose(s)) == Dispose(s)
    ensures !Dispose(s).hasModel
    ensures !s.hasModel ==> Dispose(s) == s
  {
  }

  /** Disposal is advisory: a dispose that arrives while the model is still
      loading finds nothing to release, and the load then completes and holds
      the model anyway. */
  lemma DisposeDuringLoadIsLost(s: TranslatorState)
    requires BeginLoad(s).1
    ensures var t := HandleEvent(BeginLoad(s).0, ModelCoordinator.ActionName(ModelCoordinator.DisposeTranslator));
      t.isLoading && !t.isActive && FinishLoad(t, Loaded).hasModel
  {
  }

  /** The translator reacts only to its own two commands; the chatbot's
      commands leave it untouched. */
  lemma EventsForTranslator(s: TranslatorState, a: ModelCoordinator.Action)
    ensures var t := HandleEvent(s, ModelCoordinator.ActionName(a));
      match a
      case ActivateTranslator => t == s.(isActive := true)
      case DisposeTranslator => t == Dispose(s).(isActive := false) && !t.hasModel
      case _ => t == s
  {
  }

  // ---------------------------------------------------------------------
  // Which text nodes are translated

  /** A DOM node under the content root: text, an element with its tag name
      and whether it carries `data-no-translate`, or any other node. */
  datatype DomNode =
    | Text(content: string)
    | Element(tag: string, noTranslate: bool, children: seq<DomNode>)
    | OtherNode

  /** An element matched by `script, style, noscript, [data-no-translate]`. */
  predicate Excludes(tag: string, noTranslate: bool)
  {
    tag == "script" || tag == "style" || tag == "noscript" || noTranslate
  }

  /** The test `walk` applies to a text node: its trimmed text is longer than
      two UTF-16 code units and no enclosing element is excluded. */
  predicate Collectable(content: string, insideExcluded: bool)
  {
    Utf16Length(Trim(content)) > 2 && !insideExcluded
  }

  /** A collected text: longer than two code units, no white space at
      either end. */
  predicate TrimmedText(t: string)
  {
    Utf16Length(t) > 2 && !IsSpace(t[0]) && !IsSpace(t[|t| - 1])
  }

  /** The trimmed texts `walk` collects, in document order. `insideExcluded`
      says whether an enclosing element already matches the selector. */
  function Walk(n: DomNode, insideExcluded: bool): (texts: seq<string>)
    decreases n, 1
    ensures forall t :: t in texts ==> TrimmedText(t)
    ensures insideExcluded ==> texts == []
  {
    match n
    case Text(c) => if Collectable(c, insideExcluded) then [Trim(c)] else []
    case Element(tag, noTranslate, children) =>
      WalkAll(children, insideExcluded || Excludes(tag, noTranslate))
    case OtherNode => []
  }

  function WalkAll(ns: seq<DomNode>, insideExcluded: bool): (texts: seq<string>)
    decreases ns, 0
    ensures forall t :: t in texts ==> TrimmedText(t)
    ensures insideExcluded ==> texts == []
  {
    if ns == [] then []
    else Walk(ns[0], insideExcluded) + WalkAll(ns[1..], insideExcluded)
  }

  /** Every text node under `n`, in document order, with whether it or an
      enclosing element matches the selector; nothing is filtered out. */
  function Leaves(n: DomNode, insideExcluded: bool): (leaves: seq<(string, bool)>)
    decreases n, 1
    ensures insideExcluded ==> forall k :: 0 <= k < |leaves| ==> leaves[k].1
  {
    match n
    case Text(c) => [(c, insideExcluded)]
    case Element(tag, noTranslate, children) =>
      LeavesAll(children, insideExcluded || Excludes(tag, noTranslate))
    case OtherNode => []
  }

  function LeavesAll(ns: seq<DomNode>, insideExcluded: bool): (leaves: seq<(string, bool)>)
    decreases ns, 0
    ensures insideExcluded ==> forall k :: 0 <= k < |leaves| ==> leaves[k].1
  {
    if ns == [] then []
    else Leaves(ns[0], insideExcluded) + LeavesAll(ns[1..], insideExcluded)
  }

  /** What `walk` keeps of one text node. */
  function Kept(leaf: (string, bool)): seq<string>
  {
    if Collectable(leaf.0, leaf.1) then [Trim(leaf.0)] else []
  }

  /** The filter of `walk` applied to a list of text nodes: the collectable
      ones, trimmed, in the same order. */
  function Collect(leaves: seq<(string, bool)>): seq<string>
  {
    if leaves == [] then [] else Kept(leaves[0]) + Collect(leaves[1..])
  }

  lemma {:induction false} CollectAppend(a: seq<(string, bool)>, b: seq<(string, bool)>)
    ensures Collect(a + b) == Collect(a) + Collect(b)
  {
    if a == [] {
      assert a + b == b;
    } else {
      assert (a + b)[0] == a[0] && (a + b)[1..] == a[1..] + b;
      CollectAppend(a[1..], b);
    }
  }

  /** A text is collected exactly when some text node holds it untrimmed,
      passes the length test and has no excluded ancestor. */
  lemma {:induction false} CollectMembers(leaves: seq<(string, bool)>, t: string)
    ensures t in Collect(leaves) <==>
      exists k :: 0 <= k < |leaves| && Collectable(leaves[k].0, leaves[k].1) && t == Trim(leaves[k].0)
  {
    if leaves != [] {
      CollectMembers(leaves[1..], t);
      if t in Collect(leaves[1..]) {
        var k :| 0 <= k < |leaves[1..]| && Collectable(leaves[1..][k].0, leaves[1..][k].1)
                 && t == Trim(leaves[1..][k].0);
        assert leaves[k + 1] == leaves[1..][k];
      }
      if exists k :: 0 <= k < |leaves| && Collectable(leaves[k].0, leaves[k].1) && t == Trim(leaves[k].0) {
        var k :| 0 <= k < |leaves| && Collectable(leaves[k].0, leaves[k].1) && t == Trim(leaves[k].0);
        if k > 0 {
          assert leaves[1..][k - 1] == leaves[k];
        }
      }
    }
  }

  /** `walk` is exactly the filter over all text nodes in document order:
      every collectable text is collected, once, in order, and nothing
      else, however deep an excluded element encloses it. */
  lemma {:induction false} WalkIsFilteredLeaves(n: DomNode, insideExcluded: bool)
    decreases n, 1
    ensures Walk(n, insideExcluded) == Collect(Leaves(n, insideExcluded))
  {
    match n
    case Text(c) =>
      assert Leaves(n, insideExcluded)[1..] == [];
    case Element(tag, noTranslate, children) =>
      WalkAllIsFilteredLeaves(children, insideExcluded || Excludes(tag, noTranslate));
    case OtherNode =>
  }

  lemma {:induction false} WalkAllIsFilteredLeaves(ns: seq<DomNode>, insideExcluded: bool)
    decreases ns, 0
    ensures WalkAll(ns, insideExcluded) == Collect(LeavesAll(ns, insideExcluded))
  {
    if ns != [] {
      WalkIsFilteredLeaves(ns[0], insideExcluded);
      WalkAllIsFilteredLeaves(ns[1..], insideExcluded);
      CollectAppend(Leaves(ns[0], insideExcluded), LeavesAll(ns[1..], insideExcluded));
    }
  }

  /** A two-character flag emoji is four code units long, so its text node
      is collected. */
  lemma FlagIsCollected()
    ensures Walk(Text("\U{1F1EA}\U{1F1F8}"), false) == ["\U{1F1EA}\U{1F1F8}"]
  {
    var f := "\U{1F1EA}\U{1F1F8}";
    assert !IsSpace(f[0]) && !IsSpace(f[1]);
    assert TrimStart(f) == f;
    assert TrimEnd(f) == f;
    assert Utf16Length(f) == 4 by {
      assert f[1..][1..] == [];
    }
  }

  // ---------------------------------------------------------------------
  // Batched replacement

  const BatchSize: nat := 4

  /** What one batch yields: the decoded outputs, no token id for the target
      language (the batch is skipped), or an exception (which ends the loop). */
  datatype BatchResult = Decoded(texts: seq<string>) | NoLanguageToken | Threw

  /** `textNodes.slice(i, i + batchSize)` ends here. */
  function BatchEnd(i: nat, n: nat): nat
  {
    if i + BatchSize <= n then i + BatchSize else n
  }

  /** `cur` after the first `len` nodes of the batch at `start` took their
      decoded output, where that output is non-empty. */
  function ApplyBatch(cur: seq<string>, start: nat, decoded: seq<string>, len: nat): (r: seq<string>)
    requires start + len <= |cur|
    ensures |r| == |cur|
  {
    seq(|cur|, k requires 0 <= k < |cur| =>
      if start <= k < start + len && k - start < |decoded| && decoded[k - start] != ""
      then decoded[k - start] else cur[k])
  }

  /** The node texts after the loop of `translate` has run from batch `i` on. */
  function TranslateFrom(cur: seq<string>, originals: seq<string>, run: seq<string> -> BatchResult, i: nat): (r: seq<string>)
    requires |cur| == |originals|
    decreases |originals| - i
    ensures |r| == |cur|
  {
    if i >= |originals| then cur
    else
      var e := BatchEnd(i, |originals|);
      match run(originals[i..e])
      case Threw => cur
      case NoLanguageToken => TranslateFrom(cur, originals, run, i + BatchSize)
      case Decoded(d) => TranslateFrom(ApplyBatch(cur, i, d, e - i), originals, run, i + BatchSize)
  }

  /** The batch loop of `translate`: consecutive slices of `originals`, at
      most four at a time; node `i + idx` takes output `idx` when it is not
      empty; a batch without a language token is skipped; an exception ends
      the loop. */
  method TranslateNodes(nodes: array<string>, originals: seq<string>, run: seq<string> -> BatchResult)
    requires nodes.Length == |originals|
    modifies nodes
    ensures nodes[..] == TranslateFrom(old(nodes[..]), originals, run, 0)
  {
    var i := 0;
    while i < nodes.Length
      invariant TranslateFrom(nodes[..], originals, run, i) == TranslateFrom(old(nodes[..]), originals, run, 0)
    {
      var end := if i + BatchSize <= nodes.Length then i + BatchSize else nodes.Length;
      var result := run(originals[i..end]);
      if result.Threw? {
        break;
      }
      if result.Decoded? {
        WriteBatch(nodes, i, result.texts, end - i);
      }
      i := i + BatchSize;
    }
  }

  /** The inner loop: node `start + idx` takes `decoded[idx]` when that is
      not empty. */
  method WriteBatch(nodes: array<string>, start: nat, decoded: seq<string>, len: nat)
    requires start + len <= nodes.Length
    modifies nodes
    ensures nodes[..] == ApplyBatch(old(nodes[..]), start, decoded, len)
  {
    ghost var before := nodes[..];
    var idx := 0;
    while idx < len
      invariant 0 <= idx <= len
      invariant nodes[..] == ApplyBatch(before, start, decoded, idx)
    {
      if idx < |decoded| && decoded[idx] != "" {
        nodes[start + idx] := decoded[idx];
      }
      idx := idx + 1;
    }
  }

  /** No batch from `i` (a batch boundary) up to `s` threw. */
  predicate NoThrowBetween(originals: seq<string>, run: seq<string> -> BatchResult, i: nat, s: nat)
    decreases s - i
  {
    i + BatchSize > s
    || (i + BatchSize <= |originals| && !run(originals[i..i + BatchSize]).Threw?
        && NoThrowBetween(originals, run, i + BatchSize, s))
  }

  /** What happens to node `k`: it takes output `k % 4` of its own batch when
      no earlier batch threw, its batch decoded, and that output is non-empty;
      otherwise its text is unchanged. */
  lemma {:induction false} TranslatedNodeFrom(cur: seq<string>, originals: seq<string>,
                                              run: seq<string> -> BatchResult, i: nat, k: nat)
    requires |cur| == |originals| && k < |originals|
    requires i % BatchSize == 0 && i <= k - k % BatchSize
    decreases |originals| - i
    ensures var s := k - k % BatchSize;
      var res := run(originals[s..BatchEnd(s, |originals|)]);
      TranslateFrom(cur, originals, run, i)[k]
      == if NoThrowBetween(originals, run, i, s) && res.Decoded?
            && k - s < |res.texts| && res.texts[k - s] != ""
         then res.texts[k - s] else cur[k]
  {
    var n := |originals|;
    var s := k - k % BatchSize;
    var e := BatchEnd(i, n);
    if i == s {
      assert NoThrowBetween(originals, run, i, s);
      var res := run(originals[i..e]);
      match res
      case Threw =>
      case NoLanguageToken =>
        TranslateFromBeyond(cur, originals, run, i + BatchSize, k);
      case Decoded(d) =>
        TranslateFromBeyond(ApplyBatch(cur, i, d, e - i), originals, run, i + BatchSize, k);
    } else {
      assert i + BatchSize <= s;
      assert e == i + BatchSize;
      var res := run(originals[i..e]);
      match res
      case Threw =>
        assert !NoThrowBetween(originals, run, i, s);
      case NoLanguageToken =>
        TranslatedNodeFrom(cur, originals, run, i + BatchSize, k);
      case Decoded(d) =>
        var next := ApplyBatch(cur, i, d, e - i);
        TranslatedNodeFrom(next, originals, run, i + BatchSize, k);
        assert next[k] == cur[k];
    }
  }

  /** Batches that start after node `k` leave it alone. */
  lemma {:induction false} TranslateFromBeyond(cur: seq<string>, originals: seq<string>,
                                               run: seq<string> -> BatchResult, i: nat, k: nat)
    requires |cur| == |originals| && k < i && k < |cur|
    decreases |originals| - i
    ensures TranslateFrom(cur, originals, run, i)[k] == cur[k]
  {
    if i < |originals| {
      var e := BatchEnd(i, |originals|);
      match run(originals[i..e])
      case Threw =>
      case NoLanguageToken =>
        TranslateFromBeyond(cur, originals, run, i + BatchSize, k);
      case Decoded(d) =>
        TranslateFromBeyond(ApplyBatch(cur, i, d, e - i), originals, run, i + BatchSize, k);
    }
  }

  /** Node by node, the outcome of the whole loop. */
  lemma TranslatedNode(cur: seq<string>, originals: seq<string>, run: seq<string> -> BatchResult, k: nat)
    requires |cur| == |originals| && k < |originals|
    ensures var s := k - k % BatchSize;
      var res := run(originals[s..BatchEnd(s, |originals|)]);
      TranslateFrom(cur, originals, run, 0)[k]
      == if NoThrowBetween(originals, run, 0, s) && res.Decoded?
            && k - s < |res.texts| && res.texts[k - s] != ""
         then res.texts[k - s] else cur[k]
  {
    TranslatedNodeFrom(cur, originals, run, 0, k);
  }

  /** The slices the loop takes, as a list. */
  function Batches(xs: seq<string>): seq<seq<string>>
    decreases |xs|
  {
    if |xs| <= BatchSize then (if xs == [] then [] else [xs])
    else [xs[..BatchSize]] + Batches(xs[BatchSize..])
  }

  function Flatten(bs: seq<seq<string>>): seq<string>
  {
    if bs == [] then [] else bs[0] + Flatten(bs[1..])
  }

  /** The batches cover the nodes exactly once, in order, each holding one to
      four of them. */
  lemma {:induction false} BatchesPartition(xs: seq<string>)
    decreases |xs|
    ensures Flatten(Batches(xs)) == xs
    ensures forall b :: 0 <= b < |Batches(xs)| ==> 0 < |Batches(xs)[b]| <= BatchSize
    ensures |Batches(xs)| == (|xs| + BatchSize - 1) / BatchSize
  {
    if |xs| > BatchSize {
      BatchesPartition(xs[BatchSize..]);
      var rest := Batches(xs[BatchSize..]);
      assert Batches(xs) == [xs[..BatchSize]] + rest;
      assert Batches(xs)[1..] == rest;
      assert xs == xs[..BatchSize] + xs[BatchSize..];
    } else if xs != [] {
      assert Flatten(Batches(xs)) == xs + Flatten([]);
    }
  }

  /** Batch `b` is the slice `textNodes.slice(i, i + batchSize)` that the
      loop of `translate` takes at `i = b * batchSize`. */
  lemma {:induction false} BatchesAreLoopSlices(xs: seq<string>)
    decreases |xs|
    ensures forall b :: 0 <= b < |Batches(xs)| ==>
      BatchSize * b < |xs| && Batches(xs)[b] == xs[BatchSize * b..BatchEnd(BatchSize * b, |xs|)]
  {
    if |xs| > BatchSize {
      var rest := xs[BatchSize..];
      BatchesAreLoopSlices(rest);
      forall b | 0 <= b < |Batches(xs)|
        ensures BatchSize * b < |xs| && Batches(xs)[b] == xs[BatchSize * b..BatchEnd(BatchSize * b, |xs|)]
      {
        if b > 0 {
          assert Batches(xs)[b] == Batches(rest)[b - 1];
          assert BatchSize * b == BatchSize + BatchSize * (b - 1);
          assert rest[BatchSize * (b - 1)..BatchEnd(BatchSize * (b - 1), |rest|)]
              == xs[BatchSize * b..BatchEnd(BatchSize * b, |xs|)];
        }
      }
    }
  }

  // ---------------------------------------------------------------------
  // The provider

  class TranslationProvider {
    var isSupported: bool
    var targetLanguage: string
    var modelStatus: string
    var isActive: bool
    var hasModel: bool        // translatorRef.current != null
    var hasTokenizer: bool    // tokenizerRef.current != null
    var isLoading: bool       // isPipelineLoadingRef.current

    function State(): TranslatorState
      reads this
    {
      TranslatorState(isSupported, targetLanguage, modelStatus, isActive, hasModel, hasTokenizer, isLoading)
    }

    constructor ()
      ensures State() == Initial()
    {
      isSupported, targetLanguage, modelStatus, isActive := false, DefaultLanguage, "", false;
      hasModel, hasTokenizer, isLoading := false, false, false;
    }

    method CheckCapabilities(deviceMemory: Option<real>, hasWebGPU: bool, language: string)
      modifies this
      ensures State() == CapabilityCheck(old(State()), deviceMemory.GetOr(0.0), hasWebGPU, language)
    {
      var ram := if deviceMemory.Some? then deviceMemory.value else 0.0;
      if ram >= 4.0 && hasWebGPU {
        isSupported := true;
        var mapped := BrowserPrefix(language);
        if mapped in LanguageMap {
          targetLanguage := LanguageMap[mapped];
        } else {
          targetLanguage := DefaultLanguage;
        }
      }
    }

    /** `initTranslator` up to its first await. */
    method StartInit() returns (started: bool)
      modifies this
      ensures (State(), started) == BeginLoad(old(State()))
    {
      if hasModel || isLoading {
        return false;
      }
      isLoading := true;
      modelStatus := LoadingStatus;
      return true;
    }

    /** `initTranslator` from its first await to the end. */
    method FinishInit(outcome: LoadOutcome)
      requires isLoading
      modifies this
      ensures State() == FinishLoad(old(State()), outcome)
    {
      if outcome != TokenizerFailed {
        hasTokenizer := true;
      }
      if outcome == Loaded {
        hasModel := true;
        modelStatus := ReadyStatus;
      } else {
        modelStatus := ErrorStatus;
        isSupported := false;
      }
      isLoading := false;
    }

    method DisposeTranslator()
      modifies this
      ensures State() == Dispose(old(State()))
    {
      if hasModel {
        hasModel := false;
        hasTokenizer := false;
        modelStatus := "";
      }
    }

    method HandleCoordinatorEvent(action: string)
      modifies this
      ensures State() == HandleEvent(old(State()), action)
    {
      if action == "activate-translator" {
        isActive := true;
      } else if action == "dispose-translator" {
        DisposeTranslator();
        isActive := false;
      }
    }
  }
}
