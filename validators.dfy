/**
 * `validate_telegram_chat_id` of clinic/validators.py: the same pattern as
 * the copy in clinic/models.py, with its own message. `validate_phone` of
 * the same file is not part of this model.
 */
module Validators {
  import Models

  const CHAT_ID_MESSAGE := "Некорректный chat_id. Используйте только цифры и \"-\" при необходимости."

  function ValidateTelegramChatId(value: string): (r: Models.Check)
    ensures r == Models.Pass <==> Models.ChatIdOk(value)
    ensures r.Raise? ==> r.message == CHAT_ID_MESSAGE
  {
    if !Models.ChatIdOk(value) then Models.Raise(CHAT_ID_MESSAGE) else Models.Pass
  }

  /** The two copies accept and reject the same values; only the message differs. */
  lemma SameVerdictAsModels(value: string)
    ensures ValidateTelegramChatId(value).Pass? <==> Models.ValidateTelegramChatId(value).Pass?
    ensures ValidateTelegramChatId(value).Raise? ==>
      ValidateTelegramChatId(value).message != Models.ValidateTelegramChatId(value).message
  {
    assert |CHAT_ID_MESSAGE| != |Models.CHAT_ID_MESSAGE|;
  }
}
