/** What may become of a command sent to another process. */
module Faults {
  /** It works; it fails before it takes effect, undelivered or refused by the other side; or it takes effect and only
      its reply is lost. */
  datatype Fault = Fine | NoEffect | EffectOnly
}
