/**
  The Telegram side of the notify loop (src/simple_ads.py): the message built
  for a brand match, every interpolated field escaped for MarkdownV2, and
  `send_telegram_message`, whose HTTP request is reduced to its outcome.
*/
module Notifier {

  import opened Wrappers
  import opened MarkdownV2

  /** The bot token and chat id from the environment; `None` is an unset variable. */
  datatype TelegramConfig = TelegramConfig(botToken: Option<string>, chatId: Option<string>)

  predicate CanSend(cfg: TelegramConfig) {
    Truthy(cfg.botToken) && Truthy(cfg.chatId)
  }

  /**
    `send_telegram_message`. `delivered` is whether the POST would succeed (no
    exception and a 2xx status); `posted` says whether a POST was made at all.
  */
  method SendTelegramMessage(message: string, cfg: TelegramConfig, delivered: bool) returns (ok: bool, posted: bool)
    ensures posted <==> CanSend(cfg)
    ensures ok ==> posted
    ensures ok <==> CanSend(cfg) && delivered
  {
    if !Truthy(cfg.botToken) || !Truthy(cfg.chatId) {
      return false, false;
    }
    posted := true;
    ok := delivered;
  }

  /** The text of a brand-match notification; the price comes already formatted. */
  function BrandMatchMessage(title: string, brand: string, term: string, priceText: string, link: string): string {
    "MERK MATCH GEVONDEN\\!\n\n"
    + "Advertentie: *" + Escaped(title) + "*\n"
    + "Geïdentificeerd merk: *" + Escaped(brand) + "*\n"
    + "Zoekterm: *" + Escaped(term) + "*\n"
    + "Prijs: €" + Escaped(priceText) + "\n"
    + "Link: " + Escaped(link)
  }

  /** Builds the message with the escaper, one call per field. */
  method ComposeMessage(title: string, brand: string, term: string, priceText: string, link: string)
    returns (message: string)
    ensures message == BrandMatchMessage(title, brand, term, priceText, link)
  {
    var t := EscapeMarkdownV2(title);
    var b := EscapeMarkdownV2(brand);
    var w := EscapeMarkdownV2(term);
    var p := EscapeMarkdownV2(priceText);
    var l := EscapeMarkdownV2(link);
    message := "MERK MATCH GEVONDEN\\!\n\n"
      + "Advertentie: *" + t + "*\n"
      + "Geïdentificeerd merk: *" + b + "*\n"
      + "Zoekterm: *" + w + "*\n"
      + "Prijs: €" + p + "\n"
      + "Link: " + l;
  }
}
