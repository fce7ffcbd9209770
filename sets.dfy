/** The one fact about Python's set difference both loaders rely on. */
module Sets {

  /** `required - present` is empty exactly when every required element is
      present. */
  lemma EmptyDifferenceIffSubset<T>(required: set<T>, present: set<T>)
    ensures required - present == {} <==> required <= present
  {
    if required - present == {} {
      forall x | x in required ensures x in present {
        assert x !in required - present;
      }
    }
  }
}
