/** Data model shared by the components: samples, feedback messages and the
    analyzer configuration. Numbers that the program keeps as JavaScript
    numbers are integers here; the program only ever compares them. */
module Types {

  datatype Option<+T> = None | Some(value: T)

  /** The five quality metrics of one sample (each nominally 0..100) and its creation time. */
  datatype ImageQuality = ImageQuality(
    sharpness: int,   // higher is sharper
    brightness: int,  // 50 is optimal
    noise: int,       // lower is better
    contrast: int,    // higher is more contrast
    saturation: int,  // 50 is optimal
    timestamp: int)

  /** A generated sample. The optional rendered picture is presentation only and is not kept. */
  datatype MockImage = MockImage(id: string, quality: ImageQuality)

  /** The four message types; Success < Info < Warning < Error by Level below. */
  datatype MessageType = Error | Warning | Success | Info

  datatype FeedbackMessage = FeedbackMessage(
    id: string,
    message: string,
    kind: MessageType,
    timestamp: int,
    duration: int)  // how long the message stays visible, in ms

  datatype AnalyzerConfig = AnalyzerConfig(
    sharpnessThreshold: int,
    brightnessLowerThreshold: int,
    brightnessUpperThreshold: int,
    noiseThreshold: int,
    contrastThreshold: int,
    saturationLowerThreshold: int,
    saturationUpperThreshold: int,
    feedbackDuration: int,  // in ms
    analysisDelay: int)     // nominal analysis time in ms

  /** Ordinal of a message type for classification: success < info < warning < error. */
  function Level(t: MessageType): nat
  {
    match t
    case Success => 0
    case Info => 1
    case Warning => 2
    case Error => 3
  }

  /** The join of the severity lattice: the more severe of two message types. */
  function Worst(a: MessageType, b: MessageType): (r: MessageType)
    ensures r == a || r == b
    ensures Level(r) >= Level(a) && Level(r) >= Level(b)
  {
    if Level(a) >= Level(b) then a else b
  }

  /** The ids of a list of messages. */
  function Ids(s: seq<FeedbackMessage>): set<string>
  {
    set m | m in s :: m.id
  }
}
