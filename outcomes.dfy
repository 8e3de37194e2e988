/** Failure-compatible results for the recommender.  Every constructor of
    `Error` stands for one way a request fails: an exception the Python code
    raises, the `None` of `category_determination` (`NoCategoryList`), or
    the refusal of the corrected pipeline (`InfeasibleBudget`), which the
    original never raises.  `NoCategoryList` is never reached by a request:
    the meal types that give `None` have already failed in `meal_time`. */
module Outcomes {

  datatype Error =
    | UnknownActivity(activity: string)   // KeyError on the activity-factor dict
    | UnknownMealType(mealType: string)   // KeyError on the meals dict
    | ZeroHeight                          // ZeroDivisionError computing the BMI
    | FiberTotalUnbound                   // UnboundLocalError: `total` never assigned
    | NoCategoryList                      // category_determination returned None (unreachable in the pipeline)
    | PositionOutOfBounds                 // IndexError from a positional lookup
    | InfeasibleBudget                    // no calories left for lunch or dinner

  datatype Result<T> = Success(value: T) | Failure(error: Error) {

    predicate IsFailure() {
      Failure?
    }

    function PropagateFailure<U>(): Result<U>
      requires Failure?
    {
      Failure(error)
    }

    function Extract(): T
      requires Success?
    {
      value
    }
  }

  datatype Option<T> = None | Some(value: T)
}
