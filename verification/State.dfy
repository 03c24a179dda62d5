/**
 Accounts and the plain in-memory state (state/statedb.go): three maps with zero defaults.
 This is the reference model every other state layer is measured against.
 */
module State {
  import opened Core

  type Address = a: Bytes | |a| == 20 witness [0, 0, 0, 0, 0, 0, 0, 0, 0, 0, 0, 0, 0, 0, 0, 0, 0, 0, 0, 0]

  const ZERO_ADDRESS: Address := [0, 0, 0, 0, 0, 0, 0, 0, 0, 0, 0, 0, 0, 0, 0, 0, 0, 0, 0, 0]

  datatype Account = Account(balance: uint64, nonce: uint64, codeHash: Hash, storageRoot: Hash)

  const EMPTY_ACCOUNT := Account(0, 0, ZERO_HASH, ZERO_HASH)

  type StorageKey = (Address, Hash)

  datatype World = World(accounts: map<Address, Account>, code: map<Address, Bytes>, storage: map<StorageKey, Hash>)

  function AccountAt(w: World, a: Address): Account {
    if a in w.accounts then w.accounts[a] else EMPTY_ACCOUNT
  }

  function WithAccount(w: World, a: Address, acct: Account): World {
    w.(accounts := w.accounts[a := acct])
  }

  function CodeAt(w: World, a: Address): Bytes {
    if a in w.code then w.code[a] else []
  }

  /** Empty code is no code. */
  function WithCode(w: World, a: Address, c: Bytes): World {
    w.(code := if |c| == 0 then w.code - {a} else w.code[a := c])
  }

  function WordAt(w: World, a: Address, k: Hash): Hash {
    if (a, k) in w.storage then w.storage[(a, k)] else ZERO_HASH
  }

  /** Writing the zero word clears the slot. */
  function WithWord(w: World, a: Address, k: Hash, v: Hash): World {
    w.(storage := if v == ZERO_HASH then w.storage - {(a, k)} else w.storage[(a, k) := v])
  }

  /** The in-memory database, its maps updated in place. */
  class StateDB {
    var accounts: map<Address, Account>
    var code: map<Address, Bytes>
    var storage: map<StorageKey, Hash>

    ghost function View(): World
      reads this
    {
      World(accounts, code, storage)
    }

    constructor ()
      ensures View() == World(map[], map[], map[])
    {
      accounts, code, storage := map[], map[], map[];
    }

    method SetAccount(a: Address, acct: Account)
      modifies this
      ensures View() == WithAccount(old(View()), a, acct)
    {
      accounts := accounts[a := acct];
    }

    method SetCode(a: Address, c: Bytes)
      modifies this
      ensures View() == WithCode(old(View()), a, c)
    {
      if |c| == 0 {
        code := code - {a};
        return;
      }
      code := code[a := c];
    }

    method SetStorage(a: Address, k: Hash, v: Hash)
      modifies this
      ensures View() == WithWord(old(View()), a, k, v)
    {
      if v == ZERO_HASH {
        storage := storage - {(a, k)};
        return;
      }
      storage := storage[(a, k) := v];
    }
  }
}
