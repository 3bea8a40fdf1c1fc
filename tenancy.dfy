/**
 * Tenant identification. Every request names its Telegram user in the
 * `X-Telegram-ID` header; both viewsets read it the same way, and the bot's
 * client always sends `str(telegram_id)` there.
 */
module Tenancy {
  import opened Common
  import opened Text

  const TelegramIdHeader := "X-Telegram-ID"

  /**
   * `get_telegram_id`: no header or an empty one gives no tenant, and so does
   * a value `int()` rejects; anything else is the integer it denotes.
   */
  function GetTelegramId(header: Option<string>): (r: Option<int>)
    ensures header.None? || header == Some("") ==> r.None?
    ensures header.Some? && header.value != "" ==> r == ParseInt(header.value)
    ensures r.Some? ==>
              && header.Some? && |header.value| > 0
              && (|| AllDigits(header.value)
                  || ((header.value[0] == '-' || header.value[0] == '+') && |header.value| > 1 && AllDigits(header.value[1..])))
  {
    match header
    case None => None
    case Some(h) => if h != "" then ParseInt(h) else None
  }

  /** The header the bot's client sends names exactly its own user. */
  lemma ClientHeaderIdentifies(telegramId: int)
    ensures GetTelegramId(Some(IntToString(telegramId))) == Some(telegramId)
  {
    IntToStringParses(telegramId);
  }

  /** A header that is not an optionally signed run of ASCII digits names no tenant. */
  lemma MalformedHeaderRejected(h: string)
    requires h == [] || !(AllDigits(h) || ((h[0] == '-' || h[0] == '+') && |h| > 1 && AllDigits(h[1..])))
    ensures GetTelegramId(Some(h)) == None
  {
  }
}
