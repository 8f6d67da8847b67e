/** Types shared by the component models. */
module Common {

  /** An unsigned octet. */
  type byte = x: int | 0 <= x < 256

  datatype Option<+T> = None | Some(value: T)

  /** One call of the mixer-route engine: apply or reset, and update, the path of that name. */
  datatype MixerCall = MixerCall(name: string, apply: bool)
}
