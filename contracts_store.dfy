/**
 * The contracts module of the front-end store (src/store/modules/contracts.js):
 * the active list and the archive list, the lookup by id and the list
 * mutations. The asynchronous actions that call the server before
 * committing a mutation, and the loading, error and current-contract slots,
 * are not part of this model.
 */
module ContractsStore {
  import opened Common
  import opened StoreLists

  class ContractsState<V> {
    var contracts: seq<Record<V>>
    var archivedContracts: seq<Record<V>>

    constructor ()
      ensures contracts == [] && archivedContracts == []
    {
      contracts := [];
      archivedContracts := [];
    }

    /** getContractById: the first active contract with the id; the archive is never searched. */
    function GetContractById(id: int): (r: Option<Record<V>>)
      reads this
      ensures r.None? <==> Absent(contracts, id)
      ensures r.Some? ==> r.value.id == id && r.value in contracts
    {
      Find(contracts, id)
    }

    method SetContracts(list: seq<Record<V>>)
      modifies this`contracts
      ensures contracts == list
    {
      contracts := list;
    }

    method SetArchivedContracts(list: seq<Record<V>>)
      modifies this`archivedContracts
      ensures archivedContracts == list
    {
      archivedContracts := list;
    }

    /** ADD_CONTRACT: pushed at the end; found by its id unless an earlier entry has it. */
    method AddContract(contract: Record<V>)
      modifies this`contracts
      ensures contracts == old(contracts) + [contract]
      ensures GetContractById(contract.id) ==
        if Absent(old(contracts), contract.id) then Some(contract) else old(GetContractById(contract.id))
    {
      contracts := contracts + [contract];
      FindAfterAppend(old(contracts), contract, contract.id);
    }

    /** UPDATE_CONTRACT: the first entry with the id is replaced in place; no entry, no change. */
    method UpdateContract(updated: Record<V>)
      modifies this`contracts
      ensures ReplacedFirst(old(contracts), contracts, updated)
      ensures !Absent(old(contracts), updated.id) ==> GetContractById(updated.id) == Some(updated)
    {
      var index := FindIndex(contracts, updated.id);
      if index != -1 {
        contracts := contracts[..index] + [updated] + contracts[index + 1..];
        FindAfterReplace(old(contracts), contracts, updated);
      }
    }

    /** REMOVE_CONTRACT: every entry with the id goes, the rest keep their order. */
    method RemoveContract(id: int)
      modifies this`contracts
      ensures contracts == Without(old(contracts), id)
      ensures GetContractById(id) == None
    {
      contracts := Without(contracts, id);
    }

    /** MOVE_TO_ARCHIVE: out of the active list, onto the end of the archive. */
    method MoveToArchive(contract: Record<V>)
      modifies this
      ensures contracts == Without(old(contracts), contract.id)
      ensures archivedContracts == old(archivedContracts) + [contract]
      ensures GetContractById(contract.id) == None
    {
      contracts := Without(contracts, contract.id);
      archivedContracts := archivedContracts + [contract];
    }

    /** RESTORE_FROM_ARCHIVE: out of the archive, onto the end of the active list. */
    method RestoreFromArchive(contract: Record<V>)
      modifies this
      ensures archivedContracts == Without(old(archivedContracts), contract.id)
      ensures contracts == old(contracts) + [contract]
      ensures Absent(archivedContracts, contract.id)
    {
      archivedContracts := Without(archivedContracts, contract.id);
      contracts := contracts + [contract];
    }
  }

  /**
   * Archiving a contract and restoring it again leaves the archive as it was
   * (when it did not hold the id) and makes the contract the one found by its
   * id, now at the end of the active list.
   */
  lemma ArchiveThenRestore<V>(contracts: seq<Record<V>>, archived: seq<Record<V>>, c: Record<V>)
    requires Absent(archived, c.id)
    ensures Without(archived + [c], c.id) == archived
    ensures var active := Without(contracts, c.id) + [c];
      Find(active, c.id) == Some(c) && active[|active| - 1] == c
  {
    RemoveAfterAppend(archived, c);
    WithoutAbsent(archived, c.id);
    FindAfterAppend(Without(contracts, c.id), c, c.id);
  }
}
