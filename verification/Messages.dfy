/** The wire types of the relay: values, payload records, messages and the two questions
    a relay asks of a message (has it expired, does it pass the checks). */
module Options {
  datatype Option<+T> = None | Some(value: T)
}

module Messages {
  import opened Options

  /** A JSON primitive. A number is carried as the text JavaScript prints for it; every
      finite number other than -0 is determined by that text. */
  datatype Value = Null | Bool(flag: bool) | Number(text: string) | Text(chars: string)

  datatype Entry = Entry(key: string, value: Value)

  /** A flat JavaScript object: its own entries in key order. */
  type Payload = seq<Entry>

  datatype Message = Message(
    messageId: string,
    originDeviceId: string,
    protocolVersion: int,
    timestamp: string,
    payload: Payload,
    payloadHash: string,
    expiresAt: string,
    signature: string,
    originPublicKey: string)

  /** What a relay takes from outside: how a date text is read (None when it is not a date),
      and the time-independent part of message validation. */
  datatype Env = Env(parseDate: string -> Option<int>, checks: Message -> bool)

  /** The comparison is `<=`, and a text that is no date gives NaN, which compares false. */
  predicate IsExpired(env: Env, m: Message, now: int) {
    match env.parseDate(m.expiresAt)
    case None => false
    case Some(at) => at <= now
  }

  /** A message validates when it passes the checks and has not expired. */
  predicate Accepts(env: Env, m: Message, now: int) {
    env.checks(m) && !IsExpired(env, m, now)
  }
}
