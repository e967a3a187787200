/** The part of a netCDF time-series file the record tools look at: the time axis and the
    variables, each either dimensioned by time (one element per record) or not. A variable with
    further dimensions is represented by one element column at a time. */
module Records {
  import opened Wrappers

  datatype Variable = Variable(name: string, timeDimensioned: bool, values: seq<Option<real>>)

  datatype Dataset = Dataset(time: seq<int>, variables: seq<Variable>)

  /** Every time-dimensioned variable holds one element per record. */
  predicate WellFormed(ds: Dataset) {
    forall k :: 0 <= k < |ds.variables| && ds.variables[k].timeDimensioned ==>
      |ds.variables[k].values| == |ds.time|
  }
}
