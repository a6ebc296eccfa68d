/**
  The functions of execute_with_transaction.py as they work: dictionaries filled
  in place while the graphs are walked, then three nested loops that add the
  scores up and sort. They are proved to compute what `Aggregation` defines.
 */
module Aggregators {
  import opened Words
  import opened CallGraphs
  import opened Dicts
  import opened Aggregation

  class ImportanceRecord {
    var record: Record

    constructor ()
      ensures record == []
    {
      record := [];
    }

    /** The dictionaries on the way to a cell, made as they are missed; false if the DApp is to be skipped. */
    method MakeContracts(dapp: string) returns (kept: bool)
      modifies this
      ensures kept == (Find(old(record), dapp).Some? || !SaysUnknown(dapp))
      ensures !kept ==> record == old(record)
      ensures kept ==> Find<string, Contracts>(record, dapp) == Some(FindOr<string, Contracts>(old(record), dapp, []))
      ensures forall contracts: Contracts ::
                kept ==>
                  Put<string, Contracts>(record, dapp, contracts)
                  == Put<string, Contracts>(old(record), dapp, contracts)
    {
      if Find(record, dapp).Some? {
        return true;
      }
      if SaysUnknown(dapp) {
        return false;
      }
      FindPut<string, Contracts>(record, dapp, [], dapp);
      forall contracts: Contracts {
        PutPut<string, Contracts>(record, dapp, [], contracts);
      }
      record := Put<string, Contracts>(record, dapp, []);
      return true;
    }

    /** The body of the loops: one node, one operation. */
    method AddNode(obj: Node, operation: Operation)
      modifies this
      ensures record == WithNode(old(record), obj, operation)
    {
      if obj.isSame {
        return;
      }
      var kept := MakeContracts(obj.dappName);
      if kept {
        var contracts := Find<string, Contracts>(record, obj.dappName).value;
        var functions := FindOr<Address, Functions>(contracts, obj.contract, []);
        var items := FindOr<Bytes, Items>(functions, obj.selector, []);
        var amount := Amount(obj, operation);
        if Find<Operation, nat>(items, operation).Some? {
          amount := Find<Operation, nat>(items, operation).value + amount;
        }
        items := Put<Operation, nat>(items, operation, amount);
        functions := Put<Bytes, Items>(functions, obj.selector, items);
        contracts := Put<Address, Functions>(contracts, obj.contract, functions);
        record := Put<string, Contracts>(record, obj.dappName, contracts);
      }
    }

    /** `organize_in_order_with_callgraph`: children first, then the node. */
    method OrganizeInOrder(objs: seq<Node>, operation: Operation)
      modifies this
      ensures record == WithGraphs(old(record), objs, operation)
      decreases objs
    {
      assert objs[..|objs|] == objs;
      for i := 0 to |objs|
        invariant record == WithGraphs(old(record), objs[..i], operation)
      {
        assert objs[..i + 1][..i] == objs[..i];
        if |objs[i].children| > 0 {
          OrganizeInOrder(objs[i].children, operation);
        }
        AddNode(objs[i], operation);
      }
    }

    /** A leaf of the root with everything below it, for each operation. */
    method OrganizeLeaf(leaf: Node)
      modifies this
      ensures record == WithLeaf(old(record), leaf, OPERATIONS)
    {
      assert OPERATIONS[..|OPERATIONS|] == OPERATIONS;
      for i := 0 to |OPERATIONS|
        invariant record == WithLeaf(old(record), leaf, OPERATIONS[..i])
      {
        assert OPERATIONS[..i + 1][..i] == OPERATIONS[..i];
        AddNode(leaf, OPERATIONS[i]);
        OrganizeInOrder(leaf.children, OPERATIONS[i]);
      }
    }

    /** `filter_ignore_contract_with_callgraph`; false where the source raises. */
    method FilterIgnoreContract(callgraph: Node, proxies: set<Address>, ownerOnly: Node -> bool) returns (found: bool)
      requires record == []
      modifies this
      ensures FilterIgnore(callgraph, proxies, ownerOnly) == if found then Some(record) else None
    {
      var root := callgraph;
      if callgraph.contract in proxies {
        if callgraph.children == [] {
          return false;
        }
        root := callgraph.children[0];
      }
      var leaves := root.children;
      assert leaves[..|leaves|] == leaves;
      for i := 0 to |leaves|
        invariant record == WithLeaves([], leaves[..i], ownerOnly)
      {
        assert leaves[..i + 1][..i] == leaves[..i];
        if !leaves[i].isSame || !ownerOnly(leaves[i]) {
          OrganizeLeaf(leaves[i]);
        }
      }
      return true;
    }

    /** `sort_with_importance`: scores that add up at every level, each list ranked. */
    method SortWithImportance() returns (dappList: seq<DappRow>)
      ensures dappList == Sorted(DappRows(record), DappWeight)
      ensures NonIncreasing(dappList, DappWeight) && multiset(dappList) == multiset(DappRows(record))
      ensures forall row | row in dappList :: AddsUp(row)
      ensures RowsTotal(dappList, DappWeight) == RecordTotal(record)
    {
      dappList := [];
      assert record[..|record|] == record;
      for i := 0 to |record|
        invariant dappList == DappRows(record[..i])
      {
        var contractList, dappImportance := SortContracts(record[i].1);
        assert record[..i + 1][..i] == record[..i];
        dappList := dappList + [DappRow(record[i].0, dappImportance, contractList)];
      }
      dappList := Sorted(dappList, DappWeight);
      ScoresAreRanked(record);
    }

    static method SortContracts(contracts: Contracts) returns (contractList: seq<ContractRow>, dappImportance: nat)
      ensures contractList == Sorted(ContractRows(contracts), ContractWeight)
              && dappImportance == ContractsTotal(contracts)
    {
      contractList, dappImportance := [], 0;
      assert contracts[..|contracts|] == contracts;
      for i := 0 to |contracts|
        invariant contractList == ContractRows(contracts[..i]) && dappImportance == ContractsTotal(contracts[..i])
      {
        var functionList, contractImportance, dappImportance1 := SortFunctions(contracts[i].1, dappImportance);
        dappImportance := dappImportance1;
        assert contracts[..i + 1][..i] == contracts[..i] && contracts[..i + 1] == contracts[..i] + [contracts[i]];
        SumAppend<Address, Functions>(contracts[..i], contracts[i], FunctionsTotal);
        contractList := contractList + [ContractRow(contracts[i].0, contractImportance, functionList)];
      }
      contractList := Sorted(contractList, ContractWeight);
    }

    /** Adds the functions of a contract up, for it and on top of its DApp's `dapp0`. */
    static method SortFunctions(functions: Functions, dapp0: nat)
      returns (functionList: seq<FunctionRow>, contractImportance: nat, dappImportance: nat)
      ensures functionList == Sorted(FunctionRows(functions), FunctionWeight)
      ensures contractImportance == FunctionsTotal(functions) && dappImportance == dapp0 + FunctionsTotal(functions)
    {
      functionList, contractImportance, dappImportance := [], 0, dapp0;
      assert functions[..|functions|] == functions;
      for i := 0 to |functions|
        invariant functionList == FunctionRows(functions[..i])
        invariant contractImportance == FunctionsTotal(functions[..i]) && dappImportance == dapp0 + contractImportance
      {
        var items := functions[i].1;
        var functionImportance := 0;
        assert items[..|items|] == items;
        for j := 0 to |items|
          invariant functionImportance == ItemsTotal(items[..j])
          invariant contractImportance == FunctionsTotal(functions[..i]) + functionImportance
          invariant dappImportance == dapp0 + contractImportance
        {
          assert items[..j + 1] == items[..j] + [items[j]];
          SumAppend<Operation, nat>(items[..j], items[j], Itself);
          functionImportance := functionImportance + items[j].1;
          contractImportance := contractImportance + items[j].1;
          dappImportance := dappImportance + items[j].1;
        }
        assert functions[..i + 1][..i] == functions[..i] && functions[..i + 1] == functions[..i] + [functions[i]];
        SumAppend<Bytes, Items>(functions[..i], functions[i], ItemsTotal);
        functionList := functionList + [FunctionRow(functions[i].0, functionImportance, items)];
      }
      functionList := Sorted(functionList, FunctionWeight);
    }
  }
}
