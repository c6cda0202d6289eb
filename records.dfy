/**
 * The plain records the builder and the splitter pass around.
 */
module Records {

  /** The largest finite `double`, `(2 - 2^-52) * 2^1023`. */
  const MaxDouble: real := 179769313486231570814527423731704356798070567525844996598917476803157260780028538760589558632766878171540458953514382464234321326889464182768467546703537516986049910576551282076245490090389328944075868508455133942304583236903222948165808559332123348274797826204144723168738177180919299881250404026184124858368 as real

  /** A node waiting on the depth-first builder's stack. */
  datatype StackRecord = StackRecord(
    startIndex: int,
    endIndex: int,
    nodeDepth: int,
    isLeft: bool,
    impurity: real,
    numberOfConstantFeatures: int,
    parentNodeIndex: int)

  /** A node waiting in the best-first builder's priority queue. */
  datatype PriorityQueueRecord = PriorityQueueRecord(
    thisNodeIndex: int,
    startIndex: int,
    endIndex: int,
    splitSampleIndex: int,
    nodeDepth: int,
    isLeaf: bool,
    impurity: real,
    impurityLeft: real,
    impurityRight: real,
    impurityImprovement: real)

  /** The outcome of a split search. */
  datatype SplitRecord = SplitRecord(
    featureIndexToSplit: int,
    splitSampleIndex: int,
    threshold: real,
    impurityImprovement: real,
    impurityLeft: real,
    impurityRight: real)

  /** A default-constructed split record: no feature, no split index, the
      lowest threshold, the largest child impurities, and an improvement of
      0 that only a strictly positive improvement can beat. */
  function DefaultSplit(): (s: SplitRecord)
    ensures s.featureIndexToSplit == -1 && s.splitSampleIndex == -1
    ensures s.threshold == -MaxDouble && s.threshold < 0.0
    ensures s.impurityImprovement == 0.0
    ensures s.impurityLeft == MaxDouble && s.impurityRight == MaxDouble
  {
    SplitRecord(-1, -1, -MaxDouble, 0.0, MaxDouble, MaxDouble)
  }
}
