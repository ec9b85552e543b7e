/** What the frontend pages send to the backend and what comes back. A
    handler is modelled as one sequential step: the replies it awaits are
    given to it, and it returns the requests it issued, in order. */
module Client {
  import opened Wrappers
  import opened ErrorHandler

  /** A request a page issues, with the parameters or body it sends. */
  datatype Request =
    | QuestionRequest(sessionId: int, interviewType: string, resumeId: Option<int>)
    | AnswerRequest(sessionId: int, question: string, answer: string)
    | FeedbackRequest(sessionId: int)
    | UploadRequest(fileName: string)
    | SignupRequest(fullName: string, email: string, password: string)
    | LoginRequest(username: string, password: string)
    | StartSessionRequest(resume: int, selectedType: string)

  /** The outcome of an awaited request: its response data, or the error
      it threw. */
  datatype Response<+T> = Success(data: T) | Failure(error: ApiError)

  /** JavaScript truthiness of a number read from the query string or the
      store: present and not zero. */
  predicate IdPresent(id: Option<int>) {
    id.Some? && id.value != 0
  }
}
