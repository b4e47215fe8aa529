/**
 * What both chain runners send to the translation capability and what they
 * record when a call fails. The capability itself is not modelled: each runner
 * takes it as a function from requests to replies.
 */
module Translation {

  /** One entry `{ lang }` of a translation chain. */
  datatype ChainEntry = ChainEntry(lang: string)

  /**
   * A call to the model gateway: which model, the target language (the system
   * instruction asks for a translation into `lang` and depends on nothing
   * else) and the prompt.
   */
  datatype Request = Request(modelId: string, lang: string, prompt: string)

  /** The text recorded for a step whose translation call failed. */
  function Sentinel(lang: string): string
  {
    "[Error translating to " + lang + "]"
  }
}
