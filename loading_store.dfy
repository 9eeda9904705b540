/** The global loading store: whether a page load is in progress and how far
    it has got. Progress is a percentage; the model keeps it an integer. */
module LoadingStore {

  class Store {
    var isLoading: bool
    var progress: int

    /** The initial state. */
    predicate IsInitial()
      reads this
    {
      !isLoading && progress == 0
    }

    constructor ()
      ensures IsInitial()
    {
      isLoading := false;
      progress := 0;
    }

    method StartLoading()
      modifies this
      ensures isLoading && progress == 0
    {
      isLoading := true;
      progress := 0;
    }

    /** Changes the progress and nothing else. */
    method SetProgress(progress: int)
      modifies this
      ensures this.progress == progress && isLoading == old(isLoading)
    {
      this.progress := progress;
    }

    /** Full progress; whether loading is still flagged is left as it was. */
    method CompleteLoading()
      modifies this
      ensures progress == 100 && isLoading == old(isLoading)
    {
      progress := 100;
    }

    /** Back to exactly the initial state. */
    method ResetLoading()
      modifies this
      ensures IsInitial()
    {
      isLoading := false;
      progress := 0;
    }
  }
}
