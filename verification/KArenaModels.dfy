/** Vocabulary shared by the kArena tables. */
module KArenaModels {

  /** The commit a build or a patch is based on: the parent of the fix, or the one that crashed. */
  datatype BaseCommit = ParentCommit | CrashCommit

  /** The verdict on a job; `JobError` is the verdict `error`. */
  datatype Evaluation = JobError | CompilationError | ImageError | NotReproduced | Reproduced
}
