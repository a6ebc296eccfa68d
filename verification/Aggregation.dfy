/**
  The fold of call graphs into importance scores
  (smartReco_static_analysis/code/execute_with_transaction.py). What the file
  asks Slither and Etherscan is one given predicate, `ownerOnly`.
 */
module Aggregation {
  import opened Words
  import opened CallGraphs
  import opened Dicts

  datatype Operation = ReadOp | WriteOp | InvokeOp

  type Items = Dict<Operation, nat>
  type Functions = Dict<Bytes, Items>
  type Contracts = Dict<Address, Functions>
  type Record = Dict<string, Contracts>

  datatype Cell = Cell(dapp: string, contract: Address, selector: Bytes, operation: Operation)

  function Amount(node: Node, operation: Operation): nat {
    match operation
    case ReadOp => node.read
    case WriteOp => node.write
    case InvokeOp => node.invoke
  }

  function CellOf(node: Node, operation: Operation): Cell {
    Cell(node.dappName, node.contract, node.selector, operation)
  }

  function ValueAt(record: Record, cell: Cell): nat {
    var contracts := FindOr<string, Contracts>(record, cell.dapp, []);
    var functions := FindOr<Address, Functions>(contracts, cell.contract, []);
    FindOr<Operation, nat>(FindOr<Bytes, Items>(functions, cell.selector, []), cell.operation, 0)
  }

  // Adding to a cell makes the dictionaries on the way to it as needed.

  function AddToItems(items: Items, cell: Cell, amount: nat): Items {
    Put<Operation, nat>(items, cell.operation, FindOr<Operation, nat>(items, cell.operation, 0) + amount)
  }

  function AddToFunctions(functions: Functions, cell: Cell, amount: nat): Functions {
    Put<Bytes, Items>(functions, cell.selector,
                      AddToItems(FindOr<Bytes, Items>(functions, cell.selector, []), cell, amount))
  }

  function AddToContracts(contracts: Contracts, cell: Cell, amount: nat): Contracts {
    Put<Address, Functions>(contracts, cell.contract,
                            AddToFunctions(FindOr<Address, Functions>(contracts, cell.contract, []), cell, amount))
  }

  function AddAmount(record: Record, cell: Cell, amount: nat): Record {
    var contracts := FindOr<string, Contracts>(record, cell.dapp, []);
    Put<string, Contracts>(record, cell.dapp, AddToContracts(contracts, cell, amount))
  }

  // ---------------------------------------------------------------- the fold

  /** The guards of the fold: an unknown DApp is skipped while the record has no entry for it. */
  predicate Recorded(record: Record, node: Node) {
    !node.isSame && (Find(record, node.dappName).Some? || !SaysUnknown(node.dappName))
  }

  function WithNode(record: Record, node: Node, operation: Operation): Record {
    if Recorded(record, node) then AddAmount(record, CellOf(node, operation), Amount(node, operation)) else record
  }

  function WithGraphs(record: Record, nodes: seq<Node>, operation: Operation): Record
    decreases nodes
  {
    if nodes == [] then record
    else
      var n := |nodes| - 1;
      var record1 := WithGraphs(record, nodes[..n], operation);
      WithNode(WithGraphs(record1, nodes[n].children, operation), nodes[n], operation)
  }

  const OPERATIONS: seq<Operation> := [ReadOp, WriteOp, InvokeOp]

  function WithLeaf(record: Record, leaf: Node, operations: seq<Operation>): Record {
    if operations == [] then record
    else
      var n := |operations| - 1;
      var record1 := WithNode(WithLeaf(record, leaf, operations[..n]), leaf, operations[n]);
      WithGraphs(record1, leaf.children, operations[n])
  }

  function WithLeaves(record: Record, leaves: seq<Node>, ownerOnly: Node -> bool): Record {
    if leaves == [] then record
    else
      var n := |leaves| - 1;
      var record1 := WithLeaves(record, leaves[..n], ownerOnly);
      if leaves[n].isSame && ownerOnly(leaves[n]) then record1 else WithLeaf(record1, leaves[n], OPERATIONS)
  }

  /** A proxy's graph starts below its first call; a proxy without calls has none, which raises in the source. */
  function RootOf(graph: Node, proxies: set<Address>): Option<Node> {
    if graph.contract !in proxies then Some(graph)
    else if graph.children == [] then None
    else Some(graph.children[0])
  }

  function FilterIgnore(graph: Node, proxies: set<Address>, ownerOnly: Node -> bool): Option<Record> {
    var root :- RootOf(graph, proxies);
    Some(WithLeaves([], root.children, ownerOnly))
  }

  // ---------------------------------------------------------------- what the cells must hold

  /** All nodes of `nodes` and below. */
  function Nodes(nodes: seq<Node>): seq<Node>
    decreases nodes
  {
    if nodes == [] then []
    else
      var n := |nodes| - 1;
      Nodes(nodes[..n]) + Nodes(nodes[n].children) + [nodes[n]]
  }

  predicate Counts(node: Node) {
    !node.isSame && !SaysUnknown(node.dappName)
  }

  /** The amounts that `nodes` themselves put into a cell. */
  function Contribution(nodes: seq<Node>, cell: Cell): nat {
    if nodes == [] then 0
    else
      (if Counts(nodes[0]) && CellOf(nodes[0], cell.operation) == cell then Amount(nodes[0], cell.operation) else 0)
      + Contribution(nodes[1..], cell)
  }

  /** The amounts of an operation that `nodes` themselves carry. */
  function CarriedBy(nodes: seq<Node>, operation: Operation): nat {
    if nodes == [] then 0
    else (if Counts(nodes[0]) then Amount(nodes[0], operation) else 0) + CarriedBy(nodes[1..], operation)
  }

  function Carried(nodes: seq<Node>, operations: seq<Operation>): nat {
    if operations == [] then 0
    else Carried(nodes, operations[..|operations| - 1]) + CarriedBy(nodes, operations[|operations| - 1])
  }

  function Unpruned(leaves: seq<Node>, ownerOnly: Node -> bool): seq<Node> {
    if leaves == [] then []
    else
      var n := |leaves| - 1;
      Unpruned(leaves[..n], ownerOnly) + if leaves[n].isSame && ownerOnly(leaves[n]) then [] else [leaves[n]]
  }

  lemma {:induction false} ContributionConcat(a: seq<Node>, b: seq<Node>, cell: Cell)
    ensures Contribution(a + b, cell) == Contribution(a, cell) + Contribution(b, cell)
  {
    if a == [] {
      assert a + b == b;
    } else {
      assert (a + b)[1..] == a[1..] + b;
      ContributionConcat(a[1..], b, cell);
    }
  }

  lemma ContributionOfOne(node: Node, cell: Cell)
    ensures Contribution([node], cell)
         == if Counts(node) && CellOf(node, cell.operation) == cell then Amount(node, cell.operation) else 0
  {
    assert [node][1..] == [];
  }

  /** No key of an unknown DApp, which is how every record starts and stays. */
  ghost predicate NoUnknown(record: Record) {
    forall dapp | SaysUnknown(dapp) :: Find(record, dapp).None?
  }

  lemma ValueAfterAdd(record: Record, cell: Cell, amount: nat, other: Cell)
    ensures ValueAt(AddAmount(record, cell, amount), other) == ValueAt(record, other) + if other == cell then amount
            else 0
  {
    var contracts := FindOr<string, Contracts>(record, cell.dapp, []);
    var functions := FindOr<Address, Functions>(contracts, cell.contract, []);
    var items := FindOr<Bytes, Items>(functions, cell.selector, []);
    FindPut<Operation, nat>(items, cell.operation, FindOr<Operation, nat>(items, cell.operation, 0) + amount,
                            other.operation);
    FindPut<Bytes, Items>(functions, cell.selector, AddToItems(items, cell, amount), other.selector);
    FindPut<Address, Functions>(contracts, cell.contract, AddToFunctions(functions, cell, amount), other.contract);
    FindPut<string, Contracts>(record, cell.dapp, AddToContracts(contracts, cell, amount), other.dapp);
  }

  lemma AddKeepsUnknownOut(record: Record, cell: Cell, amount: nat)
    requires NoUnknown(record) && !SaysUnknown(cell.dapp)
    ensures NoUnknown(AddAmount(record, cell, amount))
  {
    forall dapp | SaysUnknown(dapp)
      ensures Find(AddAmount(record, cell, amount), dapp).None?
    {
      var contracts := FindOr<string, Contracts>(record, cell.dapp, []);
      FindPut<string, Contracts>(record, cell.dapp, AddToContracts(contracts, cell, amount), dapp);
    }
  }

  lemma WithNodeAddsItsAmount(record: Record, node: Node, operation: Operation, cell: Cell)
    requires NoUnknown(record)
    ensures NoUnknown(WithNode(record, node, operation))
    ensures ValueAt(WithNode(record, node, operation), cell)
         == ValueAt(record, cell) + if operation == cell.operation then Contribution([node], cell) else 0
  {
    ContributionOfOne(node, cell);
    if Recorded(record, node) {
      ValueAfterAdd(record, CellOf(node, operation), Amount(node, operation), cell);
      AddKeepsUnknownOut(record, CellOf(node, operation), Amount(node, operation));
    }
  }

  /** A cell grows by the amounts of all nodes of the graphs that belong to it, each once. */
  lemma {:induction false} WithGraphsAddsAmounts(record: Record, nodes: seq<Node>, operation: Operation, cell: Cell)
    requires NoUnknown(record)
    ensures NoUnknown(WithGraphs(record, nodes, operation))
    ensures ValueAt(WithGraphs(record, nodes, operation), cell)
         == ValueAt(record, cell) + if operation == cell.operation then Contribution(Nodes(nodes), cell) else 0
    decreases nodes
  {
    if nodes != [] {
      var n := |nodes| - 1;
      var record1 := WithGraphs(record, nodes[..n], operation);
      var record2 := WithGraphs(record1, nodes[n].children, operation);
      WithGraphsAddsAmounts(record, nodes[..n], operation, cell);
      assert nodes[n] in nodes;
      WithGraphsAddsAmounts(record1, nodes[n].children, operation, cell);
      WithNodeAddsItsAmount(record2, nodes[n], operation, cell);
      ContributionConcat(Nodes(nodes[..n]) + Nodes(nodes[n].children), [nodes[n]], cell);
      ContributionConcat(Nodes(nodes[..n]), Nodes(nodes[n].children), cell);
    }
  }

  lemma NodesOfOne(node: Node)
    ensures Nodes([node]) == Nodes(node.children) + [node]
  {
    assert [node][..0] == [];
    assert Nodes([]) + Nodes(node.children) + [node] == Nodes(node.children) + [node];
  }

  /** The leaf's own amount and its children's make the contribution of the whole leaf. */
  lemma WithOperationAddsAmounts(record: Record, leaf: Node, operation: Operation, cell: Cell)
    requires NoUnknown(record)
    ensures var record1 := WithGraphs(WithNode(record, leaf, operation), leaf.children, operation);
            && NoUnknown(record1)
            && ValueAt(record1, cell)
               == ValueAt(record, cell) + if operation == cell.operation then Contribution(Nodes([leaf]), cell) else 0
  {
    WithNodeAddsItsAmount(record, leaf, operation, cell);
    WithGraphsAddsAmounts(WithNode(record, leaf, operation), leaf.children, operation, cell);
    NodesOfOne(leaf);
    ContributionConcat(Nodes(leaf.children), [leaf], cell);
  }

  lemma {:induction false} WithLeafAddsAmounts(record: Record, leaf: Node, operations: seq<Operation>, cell: Cell)
    requires NoUnknown(record)
    requires forall i, j | 0 <= i < j < |operations| :: operations[i] != operations[j]
    ensures NoUnknown(WithLeaf(record, leaf, operations))
    ensures ValueAt(WithLeaf(record, leaf, operations), cell)
         == ValueAt(record, cell) + if cell.operation in operations then Contribution(Nodes([leaf]), cell) else 0
    decreases |operations|
  {
    if operations != [] {
      var n := |operations| - 1;
      var record1 := WithLeaf(record, leaf, operations[..n]);
      WithLeafAddsAmounts(record, leaf, operations[..n], cell);
      WithOperationAddsAmounts(record1, leaf, operations[n], cell);
      assert operations == operations[..n] + [operations[n]];
    }
  }

  lemma AllOperations(operation: Operation)
    ensures operation in OPERATIONS
  {
    assert OPERATIONS[0] == ReadOp && OPERATIONS[1] == WriteOp && OPERATIONS[2] == InvokeOp;
  }

  lemma {:induction false} WithLeavesAddsAmounts(record: Record, leaves: seq<Node>, ownerOnly: Node -> bool, cell: Cell)
    requires NoUnknown(record)
    ensures NoUnknown(WithLeaves(record, leaves, ownerOnly))
    ensures ValueAt(WithLeaves(record, leaves, ownerOnly), cell)
         == ValueAt(record, cell) + Contribution(Nodes(Unpruned(leaves, ownerOnly)), cell)
    decreases |leaves|
  {
    if leaves != [] {
      var n := |leaves| - 1;
      var kept := Unpruned(leaves[..n], ownerOnly);
      WithLeavesAddsAmounts(record, leaves[..n], ownerOnly, cell);
      if leaves[n].isSame && ownerOnly(leaves[n]) {
        assert kept + [] == kept;
      } else {
        WithLeafAddsAmounts(WithLeaves(record, leaves[..n], ownerOnly), leaves[n], OPERATIONS, cell);
        AllOperations(cell.operation);
        NodesOfMore(kept, leaves[n]);
        ContributionConcat(Nodes(kept), Nodes([leaves[n]]), cell);
      }
    }
  }

  /**
    Aggregation loses and double-counts nothing: each cell holds the amounts of
    exactly the unpruned nodes that are of another, known DApp and of that cell.
    A proxy at the root is passed over for the first contract it calls.
   */
  lemma CellsAreExact(graph: Node, proxies: set<Address>, ownerOnly: Node -> bool, cell: Cell)
    ensures FilterIgnore(graph, proxies, ownerOnly).None? <==> graph.contract in proxies && graph.children == []
    ensures FilterIgnore(graph, proxies, ownerOnly).Some? ==>
              && NoUnknown(FilterIgnore(graph, proxies, ownerOnly).value)
              && ValueAt(FilterIgnore(graph, proxies, ownerOnly).value, cell)
                 == Contribution(
                      Nodes(Unpruned((if graph.contract in proxies then graph.children[0] else graph).children,
                                     ownerOnly)),
                      cell)
  {
    var root := RootOf(graph, proxies);
    if root.Some? {
      WithLeavesAddsAmounts([], root.value.children, ownerOnly, cell);
    }
  }

  // ---------------------------------------------------------------- totals

  function Itself(amount: nat): nat {
    amount
  }

  function ItemsTotal(items: Items): nat {
    Sum<Operation, nat>(items, Itself)
  }

  function FunctionsTotal(functions: Functions): nat {
    Sum<Bytes, Items>(functions, ItemsTotal)
  }

  function ContractsTotal(contracts: Contracts): nat {
    Sum<Address, Functions>(contracts, FunctionsTotal)
  }

  function RecordTotal(record: Record): nat {
    Sum<string, Contracts>(record, ContractsTotal)
  }

  lemma ItemsTotalAfterAdd(items: Items, cell: Cell, amount: nat)
    ensures ItemsTotal(AddToItems(items, cell, amount)) == ItemsTotal(items) + amount
  {
    SumPut<Operation, nat>(items, cell.operation, FindOr<Operation, nat>(items, cell.operation, 0) + amount, 0, Itself);
  }

  lemma FunctionsTotalAfterAdd(functions: Functions, cell: Cell, amount: nat)
    ensures FunctionsTotal(AddToFunctions(functions, cell, amount)) == FunctionsTotal(functions) + amount
  {
    var items := FindOr<Bytes, Items>(functions, cell.selector, []);
    ItemsTotalAfterAdd(items, cell, amount);
    SumPut<Bytes, Items>(functions, cell.selector, AddToItems(items, cell, amount), [], ItemsTotal);
  }

  lemma ContractsTotalAfterAdd(contracts: Contracts, cell: Cell, amount: nat)
    ensures ContractsTotal(AddToContracts(contracts, cell, amount)) == ContractsTotal(contracts) + amount
  {
    var functions := FindOr<Address, Functions>(contracts, cell.contract, []);
    FunctionsTotalAfterAdd(functions, cell, amount);
    SumPut<Address, Functions>(contracts, cell.contract, AddToFunctions(functions, cell, amount), [], FunctionsTotal);
  }

  lemma TotalAfterAdd(record: Record, cell: Cell, amount: nat)
    ensures RecordTotal(AddAmount(record, cell, amount)) == RecordTotal(record) + amount
  {
    var contracts := FindOr<string, Contracts>(record, cell.dapp, []);
    ContractsTotalAfterAdd(contracts, cell, amount);
    SumPut<string, Contracts>(record, cell.dapp, AddToContracts(contracts, cell, amount), [], ContractsTotal);
  }

  lemma {:induction false} CarriedByConcat(a: seq<Node>, b: seq<Node>, operation: Operation)
    ensures CarriedBy(a + b, operation) == CarriedBy(a, operation) + CarriedBy(b, operation)
  {
    if a == [] {
      assert a + b == b;
    } else {
      assert (a + b)[1..] == a[1..] + b;
      CarriedByConcat(a[1..], b, operation);
    }
  }

  lemma {:induction false} CarriedConcat(a: seq<Node>, b: seq<Node>, operations: seq<Operation>)
    ensures Carried(a + b, operations) == Carried(a, operations) + Carried(b, operations)
    decreases |operations|
  {
    if operations != [] {
      CarriedConcat(a, b, operations[..|operations| - 1]);
      CarriedByConcat(a, b, operations[|operations| - 1]);
    }
  }

  lemma NodeTotal(record: Record, node: Node, operation: Operation)
    requires NoUnknown(record)
    ensures NoUnknown(WithNode(record, node, operation))
    ensures RecordTotal(WithNode(record, node, operation)) == RecordTotal(record) + CarriedBy([node], operation)
  {
    assert CarriedBy([node], operation) == if Counts(node) then Amount(node, operation) else 0 by {
      assert [node][1..] == [];
    }
    if Recorded(record, node) {
      TotalAfterAdd(record, CellOf(node, operation), Amount(node, operation));
      AddKeepsUnknownOut(record, CellOf(node, operation), Amount(node, operation));
    }
  }

  lemma {:induction false} GraphsTotal(record: Record, nodes: seq<Node>, operation: Operation)
    requires NoUnknown(record)
    ensures NoUnknown(WithGraphs(record, nodes, operation))
    ensures RecordTotal(WithGraphs(record, nodes, operation))
            == RecordTotal(record) + CarriedBy(Nodes(nodes), operation)
    decreases nodes
  {
    if nodes != [] {
      var n := |nodes| - 1;
      var record1 := WithGraphs(record, nodes[..n], operation);
      GraphsTotal(record, nodes[..n], operation);
      assert nodes[n] in nodes;
      GraphsTotal(record1, nodes[n].children, operation);
      NodeTotal(WithGraphs(record1, nodes[n].children, operation), nodes[n], operation);
      CarriedByConcat(Nodes(nodes[..n]) + Nodes(nodes[n].children), [nodes[n]], operation);
      CarriedByConcat(Nodes(nodes[..n]), Nodes(nodes[n].children), operation);
    }
  }

  lemma {:induction false} LeafTotal(record: Record, leaf: Node, operations: seq<Operation>)
    requires NoUnknown(record)
    ensures NoUnknown(WithLeaf(record, leaf, operations))
    ensures RecordTotal(WithLeaf(record, leaf, operations)) == RecordTotal(record) + Carried(Nodes([leaf]), operations)
    decreases |operations|
  {
    if operations != [] {
      var n := |operations| - 1;
      var record1 := WithLeaf(record, leaf, operations[..n]);
      LeafTotal(record, leaf, operations[..n]);
      NodeTotal(record1, leaf, operations[n]);
      GraphsTotal(WithNode(record1, leaf, operations[n]), leaf.children, operations[n]);
      NodesOfOne(leaf);
      CarriedByConcat(Nodes(leaf.children), [leaf], operations[n]);
    }
  }

  lemma NodesOfMore(leaves: seq<Node>, leaf: Node)
    ensures Nodes(leaves + [leaf]) == Nodes(leaves) + Nodes([leaf])
  {
    assert (leaves + [leaf])[..|leaves|] == leaves;
    NodesOfOne(leaf);
    assert Nodes(leaves) + Nodes(leaf.children) + [leaf] == Nodes(leaves) + (Nodes(leaf.children) + [leaf]);
  }

  lemma {:induction false} LeavesTotal(record: Record, leaves: seq<Node>, ownerOnly: Node -> bool)
    requires NoUnknown(record)
    ensures NoUnknown(WithLeaves(record, leaves, ownerOnly))
    ensures RecordTotal(WithLeaves(record, leaves, ownerOnly))
         == RecordTotal(record) + Carried(Nodes(Unpruned(leaves, ownerOnly)), OPERATIONS)
    decreases |leaves|
  {
    if leaves == [] {
      assert Carried([], OPERATIONS) == 0 by {
        var none: seq<Node> := [];
        CarriedConcat(none, none, OPERATIONS);
        assert none + none == none;
      }
    } else {
      var n := |leaves| - 1;
      var kept := Unpruned(leaves[..n], ownerOnly);
      LeavesTotal(record, leaves[..n], ownerOnly);
      if leaves[n].isSame && ownerOnly(leaves[n]) {
        assert kept + [] == kept;
      } else {
        LeafTotal(WithLeaves(record, leaves[..n], ownerOnly), leaves[n], OPERATIONS);
        NodesOfMore(kept, leaves[n]);
        CarriedConcat(Nodes(kept), Nodes([leaves[n]]), OPERATIONS);
      }
    }
  }

  // ---------------------------------------------------------------- sorting

  datatype FunctionRow = FunctionRow(name: Bytes, importance: nat, items: Items)
  datatype ContractRow = ContractRow(address: Address, importance: nat, functions: seq<FunctionRow>)
  datatype DappRow = DappRow(name: string, importance: nat, contracts: seq<ContractRow>)

  function FunctionWeight(r: FunctionRow): nat { r.importance }
  function ContractWeight(r: ContractRow): nat { r.importance }
  function DappWeight(r: DappRow): nat { r.importance }

  function FunctionRows(functions: Functions): seq<FunctionRow> {
    if functions == [] then []
    else
      var n := |functions| - 1;
      FunctionRows(functions[..n]) + [FunctionRow(functions[n].0, ItemsTotal(functions[n].1), functions[n].1)]
  }

  function ContractRows(contracts: Contracts): seq<ContractRow> {
    if contracts == [] then []
    else
      var n := |contracts| - 1;
      var (a, functions) := contracts[n];
      ContractRows(contracts[..n]) + [ContractRow(a, FunctionsTotal(functions),
                                                  Sorted(FunctionRows(functions), FunctionWeight))]
  }

  function DappRows(record: Record): seq<DappRow> {
    if record == [] then []
    else
      var n := |record| - 1;
      var (dapp, contracts) := record[n];
      DappRows(record[..n]) + [DappRow(dapp, ContractsTotal(contracts),
                                       Sorted(ContractRows(contracts), ContractWeight))]
  }

  function RowsTotal<T>(rows: seq<T>, weight: T -> nat): nat {
    if rows == [] then 0 else weight(rows[0]) + RowsTotal(rows[1..], weight)
  }

  lemma {:induction false} RowsTotalConcat<T>(a: seq<T>, b: seq<T>, weight: T -> nat)
    ensures RowsTotal(a + b, weight) == RowsTotal(a, weight) + RowsTotal(b, weight)
  {
    if a == [] {
      assert a + b == b;
    } else {
      assert (a + b)[1..] == a[1..] + b;
      RowsTotalConcat(a[1..], b, weight);
    }
  }

  lemma RowsTotalAppend<T>(rows: seq<T>, row: T, weight: T -> nat)
    ensures RowsTotal(rows + [row], weight) == RowsTotal(rows, weight) + weight(row)
  {
    RowsTotalConcat(rows, [row], weight);
    var rest: seq<T> := [row][1..];
    assert rest == [];
  }

  lemma {:induction false} RowsTotalOfInsert<T>(x: T, sorted: seq<T>, weight: T -> nat)
    ensures RowsTotal(Insert(x, sorted, weight), weight) == weight(x) + RowsTotal(sorted, weight)
  {
    if sorted == [] || weight(sorted[0]) <= weight(x) {
      assert ([x] + sorted)[1..] == sorted;
    } else {
      RowsTotalOfInsert(x, sorted[1..], weight);
      assert Insert(x, sorted, weight)[1..] == Insert(x, sorted[1..], weight);
    }
  }

  lemma {:induction false} RowsTotalOfSorted<T>(rows: seq<T>, weight: T -> nat)
    ensures RowsTotal(Sorted(rows, weight), weight) == RowsTotal(rows, weight)
  {
    if rows != [] {
      RowsTotalOfSorted(rows[1..], weight);
      RowsTotalOfInsert(rows[0], Sorted(rows[1..], weight), weight);
    }
  }

  lemma {:induction false} FunctionRowsTotal(functions: Functions)
    ensures RowsTotal(FunctionRows(functions), FunctionWeight) == FunctionsTotal(functions)
  {
    if functions != [] {
      var n := |functions| - 1;
      var row := FunctionRow(functions[n].0, ItemsTotal(functions[n].1), functions[n].1);
      FunctionRowsTotal(functions[..n]);
      RowsTotalAppend(FunctionRows(functions[..n]), row, FunctionWeight);
      assert functions == functions[..n] + [functions[n]];
      SumAppend<Bytes, Items>(functions[..n], functions[n], ItemsTotal);
    }
  }

  lemma {:induction false} ContractRowsTotal(contracts: Contracts)
    ensures RowsTotal(ContractRows(contracts), ContractWeight) == ContractsTotal(contracts)
  {
    if contracts != [] {
      var n := |contracts| - 1;
      var row := ContractRow(contracts[n].0, FunctionsTotal(contracts[n].1),
                             Sorted(FunctionRows(contracts[n].1), FunctionWeight));
      ContractRowsTotal(contracts[..n]);
      RowsTotalAppend(ContractRows(contracts[..n]), row, ContractWeight);
      assert contracts == contracts[..n] + [contracts[n]];
      SumAppend<Address, Functions>(contracts[..n], contracts[n], FunctionsTotal);
    }
  }

  lemma {:induction false} DappRowsTotal(record: Record)
    ensures RowsTotal(DappRows(record), DappWeight) == RecordTotal(record)
  {
    if record != [] {
      var n := |record| - 1;
      var row := DappRow(record[n].0, ContractsTotal(record[n].1), Sorted(ContractRows(record[n].1), ContractWeight));
      DappRowsTotal(record[..n]);
      RowsTotalAppend(DappRows(record[..n]), row, DappWeight);
      assert record == record[..n] + [record[n]];
      SumAppend<string, Contracts>(record[..n], record[n], ContractsTotal);
    }
  }

  /** Importance adds up at every level of a row: the sum of its contracts, of their functions, of their cells. */
  ghost predicate AddsUp(row: DappRow) {
    && row.importance == RowsTotal(row.contracts, ContractWeight)
    && NonIncreasing(row.contracts, ContractWeight)
    && (forall c | c in row.contracts ::
          && c.importance == RowsTotal(c.functions, FunctionWeight)
          && NonIncreasing(c.functions, FunctionWeight)
          && (forall f | f in c.functions :: f.importance == ItemsTotal(f.items)))
  }

  lemma {:induction false} FunctionRowsAddUp(functions: Functions)
    ensures forall f | f in FunctionRows(functions) :: f.importance == ItemsTotal(f.items)
  {
    if functions != [] {
      FunctionRowsAddUp(functions[..|functions| - 1]);
    }
  }

  lemma InSorted<T>(items: seq<T>, weight: T -> nat, x: T)
    ensures x in Sorted(items, weight) <==> x in items
  {
    SortedRanks(items, weight);
    assert x in Sorted(items, weight) <==> x in multiset(Sorted(items, weight));
    assert x in items <==> x in multiset(items);
  }

  /** A contract's row, on its own. */
  ghost predicate ContractAddsUp(c: ContractRow) {
    && c.importance == RowsTotal(c.functions, FunctionWeight)
    && NonIncreasing(c.functions, FunctionWeight)
    && (forall f | f in c.functions :: f.importance == ItemsTotal(f.items))
  }

  lemma {:induction false} ContractRowsAddUp(contracts: Contracts)
    ensures forall c | c in ContractRows(contracts) :: ContractAddsUp(c)
  {
    if contracts != [] {
      var n := |contracts| - 1;
      var functions := contracts[n].1;
      ContractRowsAddUp(contracts[..n]);
      FunctionRowsTotal(functions);
      FunctionRowsAddUp(functions);
      RowsTotalOfSorted(FunctionRows(functions), FunctionWeight);
      SortedRanks(FunctionRows(functions), FunctionWeight);
      forall f | f in Sorted(FunctionRows(functions), FunctionWeight)
        ensures f.importance == ItemsTotal(f.items)
      {
        InSorted(FunctionRows(functions), FunctionWeight, f);
      }
    }
  }

  lemma {:induction false} DappRowsAddUp(record: Record)
    ensures forall row | row in DappRows(record) :: AddsUp(row)
  {
    if record != [] {
      var n := |record| - 1;
      var contracts := record[n].1;
      DappRowsAddUp(record[..n]);
      ContractRowsTotal(contracts);
      ContractRowsAddUp(contracts);
      RowsTotalOfSorted(ContractRows(contracts), ContractWeight);
      SortedRanks(ContractRows(contracts), ContractWeight);
      forall c | c in Sorted(ContractRows(contracts), ContractWeight)
        ensures ContractAddsUp(c)
      {
        InSorted(ContractRows(contracts), ContractWeight, c);
      }
    }
  }

  /**
    The scores: a permutation of the record's DApps in non-increasing importance,
    equals in their old order; importance adds up at every level, and in all it
    is the total of the record.
   */
  lemma ScoresAreRanked(record: Record)
    ensures var rows := Sorted(DappRows(record), DappWeight);
            && NonIncreasing(rows, DappWeight)
            && multiset(rows) == multiset(DappRows(record))
            && (forall w: nat :: WithWeight(rows, DappWeight, w) == WithWeight(DappRows(record), DappWeight, w))
            && (forall row | row in rows :: AddsUp(row))
            && RowsTotal(rows, DappWeight) == RecordTotal(record)
  {
    SortedRanks(DappRows(record), DappWeight);
    DappRowsAddUp(record);
    DappRowsTotal(record);
    RowsTotalOfSorted(DappRows(record), DappWeight);
    forall row | row in Sorted(DappRows(record), DappWeight)
      ensures AddsUp(row)
    {
      InSorted(DappRows(record), DappWeight, row);
    }
  }

  /** What all scores of a call graph add up to: the reads, writes and invocations of the nodes that count. */
  lemma ScoresTotal(graph: Node, proxies: set<Address>, ownerOnly: Node -> bool)
    requires FilterIgnore(graph, proxies, ownerOnly).Some?
    ensures var record := FilterIgnore(graph, proxies, ownerOnly).value;
            RowsTotal(Sorted(DappRows(record), DappWeight), DappWeight)
            == Carried(Nodes(Unpruned(RootOf(graph, proxies).value.children, ownerOnly)), OPERATIONS)
  {
    ScoresAreRanked(FilterIgnore(graph, proxies, ownerOnly).value);
    LeavesTotal([], RootOf(graph, proxies).value.children, ownerOnly);
  }
}
