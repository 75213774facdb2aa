/** The practice texts the server hands out per mode, with its fallback for
    an unknown mode (`get_practice_content`). */
module Content {
  import opened Common

  const WordsText: string := "the quick brown fox jumps over the lazy dog pack my box with five dozen liquor jugs sphinx of black quartz judge my vow how vexingly quick daft zebras jump waltz nymph for quick jigs vex bud crazy frederick bought many very exquisite opal jewels"
  const SentencesText: string := "The sun sets over the horizon painting the sky in shades of orange and pink. Technology has transformed the way we communicate and interact with each other. Learning new skills requires dedication patience and consistent practice. Every journey begins with a single step forward into the unknown."
  const ParagraphsText: string := "In the digital age, the ability to type quickly and accurately has become an essential skill for professional success. Whether you are writing emails, creating documents, or communicating with colleagues, your typing speed directly impacts your productivity. Regular practice with structured exercises can significantly improve your typing abilities over time. The key is to maintain proper finger positioning and develop muscle memory through repetition. As you progress, you will notice that your speed increases naturally while your accuracy improves. Consistent daily practice, even for just fifteen minutes, can lead to remarkable improvements in your typing proficiency."
  const NumbersText: string := "1234567890 9876543210 1029384756 5647382910 3141592653 2718281828 1618033988 1414213562 1732050807 2236067977 9999888877 7766555544 4433221100 1357924680 2468013579"
  const PunctuationText: string := "Hello, world! How are you today? I'm doing great, thanks for asking. Let's practice some punctuation: semicolons; colons: and commas, periods. Don't forget apostrophes, quotation marks, and hyphens-dashes. Question marks? Exclamation points! Parentheses (like this) and brackets [also these]."

  /** The five practice modes the server has a text for. */
  datatype Mode = Words | Sentences | Paragraphs | Numbers | Punctuation {
    /** The mode's name in a request. */
    function Name(): string {
      match this
      case Words => "words"
      case Sentences => "sentences"
      case Paragraphs => "paragraphs"
      case Numbers => "numbers"
      case Punctuation => "punctuation"
    }

    /** The mode's entry in the server's table of texts. */
    function Text(): string {
      match this
      case Words => WordsText
      case Sentences => SentencesText
      case Paragraphs => ParagraphsText
      case Numbers => NumbersText
      case Punctuation => PunctuationText
    }
  }

  /** The lookup of a requested mode name among the table's keys. */
  function ModeOf(name: string): (m: Option<Mode>)
    ensures m.Some? ==> m.value.Name() == name
  {
    if name == "words" then Some(Words)
    else if name == "sentences" then Some(Sentences)
    else if name == "paragraphs" then Some(Paragraphs)
    else if name == "numbers" then Some(Numbers)
    else if name == "punctuation" then Some(Punctuation)
    else None
  }

  /** Every mode's name is found again, so a name is a key exactly when it
      names a mode. */
  lemma ModeOfName(m: Mode)
    ensures ModeOf(m.Name()) == Some(m)
  {
  }

  /** The table entry `content_map.get(mode, content_map["words"])` picks:
      the requested mode if it is a key, otherwise "words". */
  function ModeFor(name: string): (m: Mode)
    ensures m.Name() == name || m == Words
  {
    match ModeOf(name)
    case Some(m) => m
    case None => Words
  }

  /** `get_practice_content`: the text of the picked table entry. */
  function PracticeContent(name: string): string {
    ModeFor(name).Text()
  }

  /** A known mode gets its own entry; any other name gets the "words"
      entry. */
  lemma ModeForFallback(name: string)
    ensures forall m: Mode :: m.Name() == name ==> ModeFor(name) == m
    ensures (forall m: Mode :: m.Name() != name) ==> ModeFor(name) == Words
  {
    if ModeOf(name).None? {
      forall m: Mode ensures m.Name() != name {
        ModeOfName(m);
      }
    }
  }
}
