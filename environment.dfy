/**
 * What the data utilities take from the outside world, passed explicitly: the process-wide
 * settings, the file system (as the set of paths that exist, with the content of the statistics
 * files), the dataset library and the tokenizer.
 */
module Environment {
  import opened Wrappers
  import opened Features

  /** Encodes a string into token ids (`encode_tf` of a SentencePiece vocabulary). */
  type Vocabulary = string -> seq<int>

  /** Per-split statistics read from a `stats.{split}.json` file. */
  type Stats = map<string, int>

  /**
   * The module-level settings: the TFDS data-directory override and the global task cache
   * directories, in search order. `set_tfds_data_dir_override`, `set_global_cache_dirs`
   * and `add_global_cache_dirs` build a new value of this record.
   */
  datatype Config = Config(dataDirOverride: Option<string>, cacheDirs: seq<string>)

  datatype Storage = Storage(
    paths: set<string>,                                      // files that exist
    statsFile: string -> Stats,                              // JSON content of a stats file
    splitInfo: (string, Option<string>) -> map<string, int>, // builder info: split -> num_examples
    tfdsSplit: (string, Option<string>, string) -> Dataset,  // `tfds.load(name, data_dir, split)`
    cachedSplit: (string, string) -> Dataset,                // decoded shards of (cache dir, split)
    vocabularyFor: string -> Vocabulary)                     // SentencePiece model path -> vocabulary
}
