/** What stops the quoter, and what merely pulls it. */
module Risk {
  import opened Common
  import Inventory

  datatype RiskConfig = RiskConfig(
    maxPosition: int,
    dailyLossLimitUsd: real,
    flattenOnHalt: bool,
    flattenCrossTicks: int,
    flattenOutsideHours: bool,
    maxMarginUtilisation: real,
    staleBookCancelSeconds: real,
    maxSigma: real,
    maxExternal: real)

  datatype Verdict = Verdict(quote: bool, pull: bool, flatten: bool)

  /** FullInitMarginReq and NetLiquidation; a missing tag reads 0. */
  datatype AccountValues = AccountValues(margin: real, netLiquidation: real)

  /** Everything evaluate reads that is not the inventory. */
  datatype Conditions = Conditions(
    mark: Option<real>,
    feedAgeSeconds: real,
    inHours: bool,
    account: Option<AccountValues>,
    brokerPosition: Option<int>,
    sigma: Option<real>,
    external: Option<real>,
    killFile: bool)

  predicate OverMargin(cfg: RiskConfig, account: Option<AccountValues>) {
    && account.Some?
    && var v := account.value;
    && v.margin != 0.0 && v.netLiquidation > 0.0
    && v.margin / v.netLiquidation > cfg.maxMarginUtilisation
  }

  /** What a halt does when it is found, in the order the conditions are tried. */
  datatype Finding = Clear | Pulled | Halts(flatten: bool)

  function Find(cfg: RiskConfig, a: Inventory.Account, c: Conditions): Finding {
    if c.killFile then Pulled
    else if a.TotalPnl(c.mark) <= -cfg.dailyLossLimitUsd then Halts(cfg.flattenOnHalt && a.position != 0)
    else if c.brokerPosition.Some? && c.brokerPosition.value != a.position then Halts(false)
    else if Abs(a.position) > cfg.maxPosition then Halts(cfg.flattenOnHalt)
    else if OverMargin(cfg, c.account) then Halts(false)
    else if cfg.maxSigma > 0.0 && c.sigma.Some? && c.sigma.value > cfg.maxSigma then Pulled
    else if cfg.maxExternal > 0.0 && c.external.Some? && c.external.value > cfg.maxExternal then Pulled
    else if c.feedAgeSeconds > cfg.staleBookCancelSeconds then Pulled
    else Clear
  }

  function Evaluate(cfg: RiskConfig, halted: bool, a: Inventory.Account, c: Conditions): Verdict {
    if halted then Verdict(false, true, cfg.flattenOnHalt && a.position != 0)
    else
      match Find(cfg, a, c)
      case Pulled => Verdict(false, true, false)
      case Halts(flatten) => Verdict(false, true, flatten)
      case Clear =>
        if c.inHours then Verdict(true, false, false)
        else Verdict(false, true, cfg.flattenOutsideHours && a.position != 0)
  }

  function HaltedAfter(cfg: RiskConfig, halted: bool, a: Inventory.Account, c: Conditions): bool {
    halted || Find(cfg, a, c).Halts?
  }

  class RiskMonitor {
    const cfg: RiskConfig
    var halted: bool

    constructor (cfg: RiskConfig)
      ensures this.cfg == cfg && !halted
    {
      this.cfg := cfg;
      halted := false;
    }

    method Halt()
      modifies this
      ensures halted
    {
      halted := true;
    }

    method Judge(book: Inventory.PositionBook, c: Conditions) returns (v: Verdict)
      modifies this
      ensures v == Evaluate(cfg, old(halted), book.View(), c)
      ensures halted == HaltedAfter(cfg, old(halted), book.View(), c)
    {
      var position := book.position;
      if halted {
        return Verdict(false, true, cfg.flattenOnHalt && position != 0);
      }
      if c.killFile {
        return Verdict(false, true, false);
      }
      var pnl := book.Pnl(c.mark);
      if pnl <= -cfg.dailyLossLimitUsd {
        Halt();
        return Verdict(false, true, cfg.flattenOnHalt && position != 0);
      }
      if c.brokerPosition.Some? && c.brokerPosition.value != position {
        Halt();
        return Verdict(false, true, false);
      }
      if Abs(position) > cfg.maxPosition {
        Halt();
        return Verdict(false, true, cfg.flattenOnHalt);
      }
      if c.account.Some? {
        var held, nav := c.account.value.margin, c.account.value.netLiquidation;
        if held != 0.0 && nav > 0.0 && held / nav > cfg.maxMarginUtilisation {
          Halt();
          return Verdict(false, true, false);
        }
      }
      if cfg.maxSigma > 0.0 && c.sigma.Some? && c.sigma.value > cfg.maxSigma {
        return Verdict(false, true, false);
      }
      if cfg.maxExternal > 0.0 && c.external.Some? && c.external.value > cfg.maxExternal {
        return Verdict(false, true, false);
      }
      if c.feedAgeSeconds > cfg.staleBookCancelSeconds {
        return Verdict(false, true, false);
      }
      if !c.inHours {
        return Verdict(false, true, cfg.flattenOutsideHours && position != 0);
      }
      return Verdict(true, false, false);
    }
  }

  // ---- what a verdict means, whatever order the tests come in -----------

  predicate LossHit(cfg: RiskConfig, a: Inventory.Account, c: Conditions) { a.TotalPnl(c.mark) <= -cfg.dailyLossLimitUsd }

  predicate Disagrees(a: Inventory.Account, c: Conditions) { c.brokerPosition.Some? && c.brokerPosition.value != a.position }

  /** The margin held is more than its share of what the account is worth. */
  predicate Overdrawn(cfg: RiskConfig, account: Option<AccountValues>) {
    && account.Some?
    && var v := account.value;
    && v.margin != 0.0 && v.netLiquidation > 0.0 && v.margin > cfg.maxMarginUtilisation * v.netLiquidation
  }

  lemma ShareOf(margin: real, worth: real, share: real)
    requires worth > 0.0
    ensures margin / worth > share <==> margin > share * worth
  {
    assert margin == margin / worth * worth;
  }

  lemma MarginIs(cfg: RiskConfig, account: Option<AccountValues>)
    ensures OverMargin(cfg, account) <==> Overdrawn(cfg, account)
  {
    if account.Some? && account.value.netLiquidation > 0.0 {
      ShareOf(account.value.margin, account.value.netLiquidation, cfg.maxMarginUtilisation);
    }
  }

  /** What halts for good: loss, disagreement with the broker, a position past the cap, margin. */
  predicate Fatal(cfg: RiskConfig, a: Inventory.Account, c: Conditions) {
    LossHit(cfg, a, c) || Disagrees(a, c) || Abs(a.position) > cfg.maxPosition || Overdrawn(cfg, c.account)
  }

  /** What stops quoting only while it lasts. */
  predicate Passing(cfg: RiskConfig, c: Conditions) {
    || c.killFile || !c.inHours || c.feedAgeSeconds > cfg.staleBookCancelSeconds
    || (cfg.maxSigma > 0.0 && c.sigma.Some? && c.sigma.value > cfg.maxSigma)
    || (cfg.maxExternal > 0.0 && c.external.Some? && c.external.value > cfg.maxExternal)
  }

  /** Quotes are allowed exactly when nothing is wrong, and otherwise pulled. Only the kill file hides a fatal condition. */
  lemma QuotesWhen(cfg: RiskConfig, halted: bool, a: Inventory.Account, c: Conditions)
    ensures var v := Evaluate(cfg, halted, a, c);
            && (v.quote <==> !halted && !Fatal(cfg, a, c) && !Passing(cfg, c))
            && (v.pull <==> !v.quote)
    ensures HaltedAfter(cfg, halted, a, c) <==> halted || (Fatal(cfg, a, c) && !c.killFile)
  {
    MarginIs(cfg, c.account);
  }

  /**
   * The position is crossed out exactly here: under an old halt, a loss, or a
   * cap breach the broker agrees with, where halts flatten; or with nothing
   * wrong but the hour, where the hours do. There is always one to cross out.
   */
  lemma FlattensWhen(cfg: RiskConfig, halted: bool, a: Inventory.Account, c: Conditions)
    requires cfg.maxPosition >= 0
    ensures var live := !halted && !c.killFile;
            Evaluate(cfg, halted, a, c).flatten <==>
            a.position != 0 &&
            ((cfg.flattenOnHalt && (halted || (live && LossHit(cfg, a, c))
                                    || (live && Abs(a.position) > cfg.maxPosition && !Disagrees(a, c))))
             || (cfg.flattenOutsideHours && live && !Fatal(cfg, a, c) && !c.inHours && !Passing(cfg, c.(inHours := true))))
  {
    MarginIs(cfg, c.account);
  }
}
