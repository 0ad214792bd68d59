/** What forges and jobs are to the coordinator (kuiper-forge/src/forge.rs). */
module Forge {

  datatype JobKey = JobKey(forge: string, id: string)

  /** A forge's answer about one job, its status in GitHub's terms; `Failed` if it can't be asked now. */
  datatype Status = Found(status: string) | NotFound | Failed
}
