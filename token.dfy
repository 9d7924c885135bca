/**
 * `TopUsersSFT`: the reward token. One balance per (holder, period ID), an
 * owner who alone may mint, and the two validity checks of `mintOne`.
 */
module RewardToken {
  import opened LedgerTypes
  import opened Periods

  datatype TokenEvent = Minted(holder: Address, id: nat)

  /** The checks of `mintOne`, in the order the contract makes them. */
  function MintCheck(caller: Address, owner: Address, holder: Address, id: nat): Outcome {
    if caller != owner then Revert("OwnableUnauthorizedAccount")
    else if holder == Zero then Revert("Invalid address")
    else if !ValidSFTID(id) then Revert("Invalid ID")
    else Ok
  }

  /** A mint goes through exactly for the owner, a real holder and a valid period ID. */
  lemma MintCheckSpec(caller: Address, owner: Address, holder: Address, id: nat)
    ensures MintCheck(caller, owner, holder, id) == Ok <==> caller == owner && holder != Zero && ValidSFTID(id)
    ensures caller != owner ==> MintCheck(caller, owner, holder, id) == Revert("OwnableUnauthorizedAccount")
    ensures caller == owner && holder == Zero ==> MintCheck(caller, owner, holder, id) == Revert("Invalid address")
    ensures caller == owner && holder != Zero && !ValidSFTID(id) ==> MintCheck(caller, owner, holder, id) == Revert("Invalid ID")
  {
  }

  /** The balance of (holder, id) in a balance table: 0 for a pair never minted to. */
  function BalanceIn(balances: map<(Address, nat), nat>, holder: Address, id: nat): nat {
    if (holder, id) in balances then balances[(holder, id)] else 0
  }

  class TopUsersSFT {
    var owner: Address
    var balances: map<(Address, nat), nat>
    var log: seq<TokenEvent>

    constructor (deployer: Address)
      ensures owner == deployer && balances == map[] && log == []
    {
      owner := deployer;
      balances := map[];
      log := [];
    }

    /** `balanceOf(holder, id)`. */
    function BalanceOf(holder: Address, id: nat): nat
      reads this
    {
      BalanceIn(balances, holder, id)
    }

    /** `mintOne(holder, id)` called by `caller`. */
    method MintOne(caller: Address, holder: Address, id: nat) returns (r: Outcome)
      modifies this
      ensures r == MintCheck(caller, old(owner), holder, id)
      ensures owner == old(owner)
      ensures r.Revert? ==> balances == old(balances) && log == old(log)
      ensures r.Ok? ==> balances == old(balances)[(holder, id) := old(BalanceOf(holder, id)) + 1]
      ensures r.Ok? ==> log == old(log) + [Minted(holder, id)]
      ensures forall h: Address, i: nat :: BalanceOf(h, i) == old(BalanceOf(h, i)) + (if r.Ok? && (h, i) == (holder, id) then 1 else 0)
    {
      r := MintCheck(caller, owner, holder, id);
      if r.Ok? {
        balances := balances[(holder, id) := BalanceOf(holder, id) + 1];
        log := log + [Minted(holder, id)];
      }
    }
  }
}
