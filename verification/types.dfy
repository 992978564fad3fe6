/** The records shared by the scanner, the renderers, the picker and the command
    line: configuration, token counts and file entries. */
module Types {
  import opened Wrappers

  type Byte = b: int | 0 <= b < 0x100

  /** Go's `int64`, the type of file sizes and of the size limit. */
  type Int64 = x: int | -0x8000_0000_0000_0000 <= x < 0x8000_0000_0000_0000

  /** A tokenizer kind is a string in the source; these are the four it names. */
  type TokenizerType = string

  const TIKTOKEN_GPT35: TokenizerType := "gpt-3.5-turbo"
  const TIKTOKEN_GPT4: TokenizerType := "gpt-4"
  const TIKTOKEN_CLAUDE: TokenizerType := "claude"
  const HUGGING_FACE: TokenizerType := "huggingface"

  /** A pattern list is a Go slice, which may be nil (`None`) or a possibly empty
      list (`Some`); the two are told apart for the exclude list. */
  type PatternList = Option<seq<string>>

  datatype Config = Config(
    path: string,
    includes: PatternList,
    excludes: PatternList,
    maxSize: Int64,
    maxDepth: int,
    output: string,
    threads: int,
    hidden: bool,
    useClip: bool,
    interactive: bool,
    tokenizerType: TokenizerType,
    tokenizerModel: string,
    tokenLimit: int)

  /** One file's token annotation. The source's floating-point `TokensPerc` is
      always `float64(count) / float64(tokenLimit) * 100`, so it is not stored:
      `NearLimit` below is its one use as a number. */
  datatype TokenCount = TokenCount(count: nat, truncated: bool, tokenLimit: int, warnLimit: int)

  datatype FileEntry = FileEntry(path: string, content: string, size: Int64, tokenCount: Option<TokenCount>)

  /** `FileEntry{}`, the zero record. */
  const ZERO_ENTRY := FileEntry("", "", 0, None)

  /** `TokensPerc >= 80`, that is `float64(count) / float64(limit) * 100 >= 80`,
      read over the integers: for a positive limit it is `5 * count >= 4 * limit`;
      a zero limit gives +Inf (true) for a positive count and NaN (false) for a zero
      count; a negative limit gives a value that is never positive. The reading is
      exact while the limit is below 2^40. */
  predicate NearLimit(tc: TokenCount) {
    (tc.tokenLimit > 0 && 5 * tc.count >= 4 * tc.tokenLimit) || (tc.tokenLimit == 0 && tc.count > 0)
  }

  /** The two `%.1f` renderings of a floating-point quotient, which the model leaves
      as parameters: `quotient(a, b)` prints `float64(a) / float64(b)` and
      `percent(a, b)` prints `float64(a) / float64(b) * 100`. */
  datatype FloatText = FloatText(quotient: (int, int) -> string, percent: (int, int) -> string)
}
