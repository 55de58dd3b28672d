/** The messages and exception kinds of the task core. */
module Errors {

  /** Fixed messages (constants/ErrorMessage.java). */
  const INVALID_REQUEST_URL := "INVALID REQUEST URL"
  const TASK_ID_NOT_PROVIDED := "A TASK ID WAS NOT PROVIDED"
  const INVALID_TASK_ID := "INVALID TASK ID: "
  const NO_TASK_FOUND_WITH_ID := "NO TASK FOUND WITH GIVEN ID: "
  const EMPTY_REQUEST_BODY_NOT_VALID := "AN EMPTY REQUEST BODY IS NOT VALID"
  const TASK_TITLE_CAN_NOT_BE_EMPTY := "TASK TITLE CAN'T BE NULL OR EMPTY"
  const TASK_DESCRIPTION_CAN_NOT_BE_EMPTY := "TASK DESCRIPTION CAN'T BE NULL OR EMPTY"

  /** The message the JDK gives when index 0 of an empty array is read. */
  const EMPTY_ARRAY_INDEX := "Index 0 out of bounds for length 0"

  /** The helpful NullPointerException message of JDK 15 and later when
      `getClass()` is called on a null `sourceObject`, for a class compiled
      with its parameter names; other builds word it differently. */
  const NULL_SOURCE_OBJECT := "Cannot invoke \"Object.getClass()\" because \"sourceObject\" is null"

  /** Every exception the core throws or lets through, with its message. */
  datatype Failure =
    | BadRequest(message: string)                    // exceptions.BadRequestException
    | ResourceNotFound(message: string)              // exceptions.ResourceNotFoundException
    | InvalidRequestAttributeValue(message: string)  // exceptions.InvalidRequestAttributeValueException
    | InvalidRequestUrl(message: string)             // exceptions.InvalidRequestUrlException
    | JsonSyntax(message: string)                    // Gson's JsonSyntaxException
    | ReadFailure(message: string)                   // Gson's JsonIOException or java.io.IOException
    | IndexOutOfBounds(message: string)              // ArrayIndexOutOfBoundsException
    | NullPointer(message: string)                   // NullPointerException

  /** A value, or the exception that was thrown instead. */
  datatype Result<+T> = Ok(value: T) | Err(error: Failure)
}
