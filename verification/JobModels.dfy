/** `job_models.py`: the status of a job. */
module JobModels {
  datatype Status = TODO | RUNNING | PAUSED | SUCCESS | FAILED | DEAD

  predicate Open(s: Status) {
    s == TODO || s == RUNNING || s == PAUSED
  }

  predicate Terminal(s: Status) {
    s == SUCCESS || s == FAILED || s == DEAD
  }
}
