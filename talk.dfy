/**
 * The Talk side of reminders (lib/Service/TalkService.php): whether a chat is
 * configured, the guards in front of a send, the choice between the two
 * reminder texts, and the token masking used in log lines. Whether the Talk
 * app is enabled is a parameter; the send itself (sendToChat, an internal
 * Talk API) is not part of this model: a guarded-through send is returned as
 * the message it would post.
 */
module Talk {
  import opened Common

  /** isTalkConfigured: a token is stored and it is not empty. */
  function IsTalkConfigured(token: Option<string>): (r: bool)
    ensures r <==> token.Some? && token.value != ""
  {
    token != None && token != Some("")
  }

  /** What sendMessage does: nothing, or post the message to the chat with that token. */
  datatype Dispatch = Skipped | ToChat(token: string, message: string)

  /**
   * sendMessage: gives up when Talk is not enabled or the token is missing,
   * otherwise hands the message to the chat; its boolean result is false
   * whenever it gives up.
   */
  function SendMessage(talkAvailable: bool, token: Option<string>, message: string): (d: Dispatch)
    ensures d.ToChat? <==> talkAvailable && IsTalkConfigured(token)
    ensures d.ToChat? ==> d.token == token.value && d.message == message
  {
    if !talkAvailable then Skipped
    else if token.None? || token.value == "" then Skipped
    else ToChat(token.value, message)
  }

  // The two reminder texts, around the contract name and the deadline.
  const FirstHead := "\U{1F4CB} **K\U{FC}ndigungserinnerung**\n\nDer Vertrag \""
  const FinalHead := "\U{26A0}\U{FE0F} **Letzte K\U{FC}ndigungserinnerung**\n\nDer Vertrag \""
  const Middle := "\" muss bis **"
  const FirstTail := "** gek\U{FC}ndigt werden.\n\n_Dies ist die erste Erinnerung._"
  const FinalTail := "** gek\U{FC}ndigt werden!\n\n_Dies ist die letzte Erinnerung vor Ablauf der K\U{FC}ndigungsfrist._"

  const FirstType := "first"

  /** The text sendReminderMessage posts: the first-reminder text for exactly "first", the final one otherwise. */
  function ReminderMessage(contractName: string, deadline: string, reminderType: string): (m: string)
    ensures var head := if reminderType == FirstType then FirstHead else FinalHead;
      && |m| > |head| + |contractName| + |Middle| + |deadline|
      && m[..|head|] == head
      && m[|head|..|head| + |contractName|] == contractName
      && m[|head| + |contractName|..|head| + |contractName| + |Middle|] == Middle
      && m[|head| + |contractName| + |Middle|..|head| + |contractName| + |Middle| + |deadline|] == deadline
  {
    if reminderType == FirstType then FirstHead + contractName + Middle + deadline + FirstTail
    else FinalHead + contractName + Middle + deadline + FinalTail
  }

  /** The first-reminder text is never the text of another reminder type. */
  lemma FirstDiffersFromFinal(name: string, deadline: string, reminderType: string)
    requires reminderType != FirstType
    ensures ReminderMessage(name, deadline, FirstType) != ReminderMessage(name, deadline, reminderType)
  {
    var a := ReminderMessage(name, deadline, FirstType);
    var b := ReminderMessage(name, deadline, reminderType);
    assert a[0] == FirstHead[0];
    assert b[0] == FinalHead[0];
  }

  /** sendReminderMessage: the chosen text goes through the same guards as any message. */
  function SendReminderMessage(talkAvailable: bool, token: Option<string>, contractName: string,
                               deadline: string, reminderType: string): (d: Dispatch)
    ensures d.ToChat? <==> talkAvailable && IsTalkConfigured(token)
    ensures d.ToChat? ==> d.message == ReminderMessage(contractName, deadline, reminderType)
  {
    SendMessage(talkAvailable, token, ReminderMessage(contractName, deadline, reminderType))
  }

  const Mask := "***"

  /** anonymizeToken: at most the first three characters of the token survive, followed by the mask. */
  function AnonymizeToken(token: string): (r: string)
    ensures 3 <= |r| <= 6 && r[|r| - 3..] == Mask
    ensures var shown := r[..|r| - 3];
      && |shown| <= |token| && shown == token[..|shown|]
      && (|shown| == 0 <==> |token| <= 3)
      && (|token| > 3 ==> |shown| == 3)
  {
    if |token| <= 3 then Mask else token[..3] + Mask
  }

  /** Tokens that agree on their first three characters are logged alike: the rest never shows. */
  lemma AnonymizeHidesRest(a: string, b: string)
    requires |a| > 3 && |b| > 3 && a[..3] == b[..3]
    ensures AnonymizeToken(a) == AnonymizeToken(b)
  {
  }
}
