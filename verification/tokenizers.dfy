/** Token counting (tokenizers.go). The encoders themselves belong to foreign
    libraries, so each is a parameter: a tiktoken encoding maps a text to its token
    list, a HuggingFace tokenizer maps it to a token list or an error. */
module Tokenizers {
  import opened Wrappers
  import opened Strs
  import opened Paths
  import opened Types

  type TiktokenEncoder = string -> seq<int>
  type HuggingFaceEncoder = string -> Result<seq<int>, string>

  /** The two library entry points the constructors call: looking up a named
      tiktoken encoding, and loading a HuggingFace tokenizer from a file. */
  datatype TokenizerEnv = TokenizerEnv(
    getEncoding: string -> Result<TiktokenEncoder, string>,
    fromFile: string -> Result<HuggingFaceEncoder, string>)

  /** The two implementations of the `Tokenizer` interface. */
  datatype Tokenizer =
    | Tiktoken(encoding: TiktokenEncoder, model: string, tokenLimit: int, warnLimit: int)
    | HuggingFaceTok(encoder: HuggingFaceEncoder, modelPath: string, tokenLimit: int, warnLimit: int)

  const TIKTOKEN_ENCODING := "cl100k_base"

  /** `int(float64(limit) * 0.8)`: four fifths of the limit, truncated toward zero.
      Over the integers this is exact while |limit| stays below 2^40. */
  function WarnLimitOf(limit: int): (w: int)
    ensures limit >= 0 ==> 0 <= 5 * w <= 4 * limit < 5 * w + 5
    ensures limit <= 0 ==> 5 * w + 5 > 4 * limit >= 5 * w - 5 && 4 * limit <= 5 * w <= 0
  {
    if limit >= 0 then 4 * limit / 5 else -(4 * -limit / 5)
  }

  /** Truncation toward zero is symmetric. */
  lemma WarnLimitOdd(limit: int)
    ensures WarnLimitOf(-limit) == -WarnLimitOf(limit)
  {
  }

  /** With a non-negative limit the warning threshold lies between 0 and the limit. */
  lemma WarnLimitBelowLimit(limit: int)
    requires limit >= 0
    ensures 0 <= WarnLimitOf(limit) <= limit
  {
  }

  /** `NewTiktokenTokenizer`. */
  function NewTiktokenTokenizer(env: TokenizerEnv, model: string, limit: int): (r: Result<Tokenizer, string>)
    ensures env.getEncoding(TIKTOKEN_ENCODING).Err? <==> r.Err?
    ensures r.Err? ==> r.error == "failed to get tiktoken encoding: " + env.getEncoding(TIKTOKEN_ENCODING).error
    ensures r.Ok? ==>
      && r.value.Tiktoken? && r.value.model == model
      && r.value.encoding == env.getEncoding(TIKTOKEN_ENCODING).value
      && r.value.tokenLimit == limit && r.value.warnLimit == WarnLimitOf(limit)
  {
    match env.getEncoding(TIKTOKEN_ENCODING)
    case Err(e) => Err("failed to get tiktoken encoding: " + e)
    case Ok(enc) => Ok(Tiktoken(enc, model, limit, WarnLimitOf(limit)))
  }

  /** `NewHuggingFaceTokenizer`. */
  function NewHuggingFaceTokenizer(env: TokenizerEnv, modelPath: string, limit: int): (r: Result<Tokenizer, string>)
    ensures env.fromFile(modelPath).Err? <==> r.Err?
    ensures r.Err? ==> r.error == "failed to load HuggingFace tokenizer: " + env.fromFile(modelPath).error
    ensures r.Ok? ==>
      && r.value.HuggingFaceTok? && r.value.modelPath == modelPath
      && r.value.encoder == env.fromFile(modelPath).value
      && r.value.tokenLimit == limit && r.value.warnLimit == WarnLimitOf(limit)
  {
    match env.fromFile(modelPath)
    case Err(e) => Err("failed to load HuggingFace tokenizer: " + e)
    case Ok(enc) => Ok(HuggingFaceTok(enc, modelPath, limit, WarnLimitOf(limit)))
  }

  /** The record both `CountTokens` variants build from a token list. */
  function MakeCount(tokens: seq<int>, t: Tokenizer): TokenCount {
    TokenCount(|tokens|, |tokens| > t.tokenLimit, t.tokenLimit, t.warnLimit)
  }

  /** `CountTokens`: the count is the length of the encoder's token list, the
      limits are the tokenizer's, and the result is truncated exactly when the
      count exceeds the limit. Only the HuggingFace encoder can fail. */
  function CountTokens(t: Tokenizer, text: string): (r: Result<TokenCount, string>)
    ensures t.Tiktoken? ==> r == Ok(MakeCount(t.encoding(text), t))
    ensures t.HuggingFaceTok? ==>
      && (t.encoder(text).Err? <==> r.Err?)
      && (r.Err? ==> r.error == "failed to encode text: " + t.encoder(text).error)
      && (r.Ok? ==> r.value.count == |t.encoder(text).value|)
    ensures r.Ok? ==>
      && r.value.tokenLimit == t.tokenLimit && r.value.warnLimit == t.warnLimit
      && (r.value.truncated <==> r.value.count > t.tokenLimit)
  {
    match t
    case Tiktoken(enc, _, _, _) => Ok(MakeCount(enc(text), t))
    case HuggingFaceTok(enc, _, _, _) =>
      match enc(text)
      case Err(e) => Err("failed to encode text: " + e)
      case Ok(ids) => Ok(MakeCount(ids, t))
  }

  /** `Name`. */
  function Name(t: Tokenizer): (n: string)
    ensures t.Tiktoken? ==> HasPrefix(n, "tiktoken-") && n[|"tiktoken-"|..] == t.model
    ensures t.HuggingFaceTok? ==> HasPrefix(n, "huggingface-") && n[|"huggingface-"|..] == Base(t.modelPath)
  {
    match t
    case Tiktoken(_, model, _, _) => "tiktoken-" + model
    case HuggingFaceTok(_, modelPath, _, _) => "huggingface-" + Base(modelPath)
  }

  /** The two kinds never share a name: the prefixes differ at their first
      character. */
  lemma NamesDistinguishKinds(t1: Tokenizer, t2: Tokenizer)
    requires t1.Tiktoken? && t2.HuggingFaceTok?
    ensures Name(t1) != Name(t2)
  {
    assert Name(t1)[0] == 't' && Name(t2)[0] == 'h';
  }

  /** A tokenizer type the factory knows. */
  predicate KnownKind(k: TokenizerType) {
    k == TIKTOKEN_GPT35 || k == TIKTOKEN_GPT4 || k == TIKTOKEN_CLAUDE || k == HUGGING_FACE
  }

  /** `NewTokenizer`: the three tiktoken kinds build a tiktoken tokenizer whose
      model is the kind's own string, the HuggingFace kind loads `modelPath`, and
      anything else is an error. */
  function NewTokenizer(env: TokenizerEnv, kind: TokenizerType, modelPath: string, limit: int): (r: Result<Tokenizer, string>)
    ensures !KnownKind(kind) ==> r == Err("unsupported tokenizer type: " + kind)
    ensures r.Ok? ==> KnownKind(kind) && r.value.tokenLimit == limit && r.value.warnLimit == WarnLimitOf(limit)
    ensures r.Ok? && kind != HUGGING_FACE ==> r.value.Tiktoken? && r.value.model == kind
    ensures r.Ok? && kind == HUGGING_FACE ==> r.value.HuggingFaceTok? && r.value.modelPath == modelPath
  {
    if kind == TIKTOKEN_GPT35 then NewTiktokenTokenizer(env, "gpt-3.5-turbo", limit)
    else if kind == TIKTOKEN_GPT4 then NewTiktokenTokenizer(env, "gpt-4", limit)
    else if kind == TIKTOKEN_CLAUDE then NewTiktokenTokenizer(env, "claude", limit)
    else if kind == HUGGING_FACE then NewHuggingFaceTokenizer(env, modelPath, limit)
    else Err("unsupported tokenizer type: " + kind)
  }

  /** The factory fails for a known kind exactly when its library entry point
      fails: the three tiktoken kinds share the `cl100k_base` encoding. */
  lemma NewTokenizerFailsOnlyInLibrary(env: TokenizerEnv, kind: TokenizerType, modelPath: string, limit: int)
    requires KnownKind(kind)
    ensures NewTokenizer(env, kind, modelPath, limit).Err? <==>
      (if kind == HUGGING_FACE then env.fromFile(modelPath).Err? else env.getEncoding(TIKTOKEN_ENCODING).Err?)
  {
  }

  /** The counts a tokenizer from the factory reports: truncated exactly above the
      configured limit, with the warning threshold copied from construction. */
  lemma FactoryCounts(env: TokenizerEnv, kind: TokenizerType, modelPath: string, limit: int, text: string)
    requires NewTokenizer(env, kind, modelPath, limit).Ok?
    requires CountTokens(NewTokenizer(env, kind, modelPath, limit).value, text).Ok?
    ensures var tc := CountTokens(NewTokenizer(env, kind, modelPath, limit).value, text).value;
      tc.tokenLimit == limit && tc.warnLimit == WarnLimitOf(limit) && (tc.truncated <==> tc.count > limit)
  {
  }

  /** The 80 % test the renderers apply and the stored warning threshold agree:
      for a positive limit, a count above the threshold is near the limit, and a
      count near the limit is at least the threshold. */
  lemma NearLimitMatchesWarnLimit(tc: TokenCount)
    requires tc.tokenLimit > 0 && tc.warnLimit == WarnLimitOf(tc.tokenLimit)
    ensures tc.count > tc.warnLimit ==> NearLimit(tc)
    ensures NearLimit(tc) ==> tc.count >= tc.warnLimit
  {
  }

  /** A truncated count is always near the limit. */
  lemma TruncatedIsNearLimit(tc: TokenCount)
    requires tc.tokenLimit >= 0 && (tc.truncated <==> tc.count > tc.tokenLimit)
    requires tc.truncated
    ensures NearLimit(tc)
  {
  }
}
