/** The pool as the object the operations update in place. */
module ShareBalance {
  import opened Wrappers
  import opened FixedPoint
  import opened SharePool

  class Balance {
    var initialised: bool
    var effective: u128
    var issued: u128
    var bias: u128
    var checkpoint: u32
    var drainpoint: u32

    function View(): Pool
      reads this
    {
      if initialised then Live(effective, issued, bias, checkpoint, drainpoint) else Fresh
    }

    constructor ()
      ensures View() == Fresh
    {
      initialised := false;
      effective, issued, bias, checkpoint, drainpoint := 0, 0, 0, 0, 0;
    }

    constructor Clone(other: Balance)
      ensures View() == other.View()
    {
      initialised := other.initialised;
      effective, issued, bias := other.effective, other.issued, other.bias;
      checkpoint, drainpoint := other.checkpoint, other.drainpoint;
    }

    method InitBalance()
      modifies this
      ensures View() == INITIAL
    {
      effective := 0;
      issued := 0;
      bias := DIV;
      checkpoint := 0;
      drainpoint := 0;
      initialised := true;
    }

    method IsFreshBalance()
      modifies this
      ensures View() == if old(View()).Fresh? then INITIAL else old(View())
    {
      if !initialised {
        InitBalance();
      }
    }

    method BalanceCheckpoint()
      requires View().Live?
      modifies this
      ensures View() == Checkpoint(old(View()))
    {
      var next := Tick(checkpoint);
      if bias == 0 {
        drainpoint := next;
      }
      checkpoint := next;
    }

    method Deposit(asset: u128) returns (r: Result<(u128, Receipt), Error>)
      modifies this
      ensures (View(), r) == SharePool.Deposit(old(View()), asset)
    {
      if asset == 0 {
        return Err(ZeroDepositNotAllowed);
      }
      IsFreshBalance();
      if bias == 0 {
        return Err(BalanceDrainedCannotDeposit);
      }
      var shares := asset;
      if issued != 0 {
        var quotient := CheckedDiv(SaturatingFromInteger(asset), bias);
        if quotient.None? {
          return Err(InadequatePrecision);
        }
        shares := quotient.value / DIV;
      }
      if shares == 0 {
        return Err(LessThanOneShareDerived);
      }
      if effective + asset > MAX {
        return Err(AssetOverflow);
      }
      if issued + shares > MAX {
        return Err(SharesOverflow);
      }
      effective := effective + asset;
      issued := issued + shares;
      r := Ok((asset, Receipt(asset, shares, bias, checkpoint)));
    }

    method Mint(asset: u128) returns (r: Result<u128, Error>)
      modifies this
      ensures (View(), r) == SharePool.Mint(old(View()), asset)
    {
      if asset == 0 {
        return Ok(0);
      }
      if !initialised {
        return Err(BalanceNotInitiatedViaDeposit);
      }
      if issued == 0 {
        return Err(RequiresExistingDeposits);
      }
      if effective + asset > MAX {
        return Err(AssetOverflow);
      }
      var price := CheckedFromRational(effective + asset, issued);
      if price.None? {
        return Err(InadequatePrecision);
      }
      effective := effective + asset;
      bias := price.value;
      BalanceCheckpoint();
      r := Ok(asset);
    }

    method Reap(asset: u128) returns (r: Result<u128, Error>)
      modifies this
      ensures (View(), r) == SharePool.Reap(old(View()), asset)
    {
      if asset == 0 {
        return Ok(0);
      }
      if !initialised {
        return Err(BalanceNotInitiatedViaDeposit);
      }
      if issued == 0 {
        return Err(RequiresExistingDeposits);
      }
      if effective < asset {
        return Err(AssetUnderflow);
      }
      effective := effective - asset;
      if effective == 0 {
        bias := 0;
      } else {
        var price := CheckedFromRational(effective, issued);
        if price.None? {
          return Err(InadequatePrecision);
        }
        bias := price.value;
      }
      BalanceCheckpoint();
      r := Ok(asset);
    }

    method Drain() returns (r: Result<u128, Error>)
      modifies this
      ensures (View(), r) == SharePool.Drain(old(View()))
    {
      var value := if initialised then effective else 0;
      r := Reap(value);
    }

    method Withdraw(receipt: Receipt) returns (r: Result<u128, Error>)
      modifies this
      ensures (View(), r) == SharePool.Withdraw(old(View()), receipt)
    {
      if !initialised {
        return Err(BalanceNotInitiatedViaDeposit);
      }
      var shares := receipt.shares;
      if shares > issued || shares == 0 || issued == 0 {
        return Err(InvalidReceipt);
      }
      var receiptBias := receipt.bias;
      var atDeposit := CheckedMul(SaturatingFromInteger(shares), receiptBias);
      if atDeposit.None? {
        return Err(InadequatePrecision);
      }
      var value := atDeposit.value;
      if drainpoint > receipt.checkpoint {
        value := SaturatingFromInteger(shares);
        receiptBias := DIV;
      }
      var ratio := CheckedDiv(bias, receiptBias);
      if ratio.None? {
        return Err(InadequatePrecision);
      }
      var now := CheckedMul(value, ratio.value);
      if now.None? {
        return Err(InadequatePrecision);
      }
      var worth := now.value / DIV;
      var paid := if worth <= effective then worth else effective;
      effective := effective - paid;
      issued := issued - shares;
      if issued == 0 {
        if effective != 0 {
          var rest := effective;
          InitBalance();
          return Ok(Saturate(paid + rest));
        }
        bias := DIV;
      }
      r := Ok(paid);
    }

    /** Reads only: the withdrawal runs on a copy. */
    method ReceiptActiveValue(receipt: Receipt) returns (r: Result<u128, Error>)
      ensures r == SharePool.ReceiptActiveValue(View(), receipt)
    {
      if !initialised {
        return Err(BalanceNotInitiatedViaDeposit);
      }
      if receipt.shares > issued || receipt.shares == 0 || issued == 0 {
        return Err(InvalidReceipt);
      }
      var copy := new Balance.Clone(this);
      r := copy.Withdraw(receipt);
    }
  }
}
