/** Failure-carrying results, and the errors the data utilities raise. */
module Wrappers {

  datatype Option<+T> = None | Some(value: T)

  /** The pipeline stage named in a validation error ("text preprocessing", "token preprocessing"). */
  datatype Stage = TextPreprocessing | TokenPreprocessing

  /** Every exception the modelled code raises, one constructor per raise site. */
  datatype Error =
    | DuplicateProvider(name: string)          // registry add on a present name
    | ProviderNotRegistered(name: string)      // registry get on an absent name
    | InvalidTaskName(name: string)            // task name fails the name pattern
    | MissingVersion(tfdsName: string)         // TFDS name without ':'
    | InvalidSplit(dataset: string, split: string)
    | MissingFeature(feature: string, stage: Stage)
    | WrongType(feature: string, stage: Stage)
    | WrongRank(feature: string, stage: Stage)
    | UnexpectedEos(stage: Stage)
    | MissingSequenceLength(feature: string)   // KeyError on sequence_length[feat]
    | NotCached(task: string)
    | MissingStats(task: string, split: string)
    | MissingStatsKey(key: string)             // KeyError on stats["examples"]
    | MissingRate(task: string)                // bare task name and no default rate
    | IncompatibleOutputFeatures
    | IncompatibleModelPaths
    | NoAvailableTasks(split: string)
    | UnknownTask(task: string)                // KeyError in get_rate
    | RateNotANumber(task: string)             // TypeError from float(None) in get_rate

  datatype Result<+T> = Success(value: T) | Failure(error: Error) {
    predicate IsFailure() { Failure? }
    function PropagateFailure<U>(): Result<U>
      requires Failure?
    {
      Failure(error)
    }
    function Extract(): T
      requires Success?
    {
      value
    }
  }

  datatype Outcome = Pass | Fail(error: Error) {
    predicate IsFailure() { Fail? }
    function PropagateFailure(): Outcome
      requires Fail?
    {
      this
    }
  }
}
