/** The values that the delivery engine passes around.
    Times are nanoseconds; the user interface shows them in milliseconds. */
module Types {

  datatype OutputConfig = OutputConfig(
    name: string, targetLang: string, account: string, accounts: seq<string>,
    prefix: string, suffix: string, showSeq: bool)
  {
    /** The account pool: the list when there is one, else the single account. */
    function AccountPool(): seq<string> {
      if |accounts| > 0 then accounts else if account != "" then [account] else []
    }

    /** One of its accounts: of the list, or the single one when there is no list. */
    predicate Uses(a: string) {
      if accounts != [] then a in accounts else account != "" && a == account
    }
  }

  /** One recognised sentence with its translations, numbered by the agent. */
  datatype Translation = Translation(
    seqNo: int, sourceText: string, sourceLang: string, texts: map<string, string>)

  datatype PendingMsg = PendingMsg(id: int, text: string, sendAt: int)

  datatype OutputState = OutputState(
    paused: bool, lastText: string, pending: seq<PendingMsg>, recent: seq<string>)

  datatype DelayedMsg = DelayedMsg(
    id: int, text: string, sendAt: int, output: string, seqNum: nat)

  /** The per-output reorder buffer and emoji counter of `run`. */
  datatype Sender = Sender(nextSeq: nat, seqCounter: nat, pending: map<int, string>)

  const SEND_DELAY: int := 3_000_000_000
  const MAX_RECENT: nat := 5

  function UnixMilli(t: int): int { t / 1_000_000 }
}
