/** Colour choices that depend on an amount: the balance colour used on the
    client list (app/page.js) and on a table card (MesaCard.js), and the
    subtotal colour of the table detail (MesaDialog.js). */
module Display {

  datatype Tone = Green | Red | Gray | Emerald

  /** `getBalanceColor(saldo)` */
  function BalanceTone(saldo: real): (t: Tone)
    ensures t == Green <==> saldo > 0.0
    ensures t == Red <==> saldo < 0.0
    ensures t == Gray <==> saldo == 0.0
  {
    if saldo > 0.0 then Green else if saldo < 0.0 then Red else Gray
  }

  /** The subtotal colour: emerald for a total of zero or more, red below. */
  function SubtotalTone(total: real): (t: Tone)
    ensures t == Emerald <==> total >= 0.0
    ensures t == Red <==> total < 0.0
  {
    if total >= 0.0 then Emerald else Red
  }

  /** Negating an amount swaps green and red and keeps gray. */
  lemma BalanceToneMirrors(saldo: real)
    ensures BalanceTone(-saldo) == match BalanceTone(saldo)
      case Green => Red
      case Red => Green
      case other => other
  {
  }

  /** Both colourings mark the same amounts red. */
  lemma RedAgrees(x: real)
    ensures BalanceTone(x) == Red <==> SubtotalTone(x) == Red
  {
  }
}
