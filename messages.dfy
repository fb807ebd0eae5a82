/** The user-facing texts of app/utils/error-messages.ts and the fixed texts the
    routes and handlers put into responses and chat messages. */
module Messages {
  const TRY_AGAIN := "An error occurred. Please try again."
  const UNEXPECTED_RESPONSE := "Unexpected response from server."
  const FUNCTION_PARSE_ERROR := "Failed to parse function arguments or fetch weather."
  const UNRECOGNIZED_REQUEST := "Sorry, I could not understand your request."
  const STREAM_ERROR := "Stream error"
  const NO_VERIFIED_EVENTS := "NO_VERIFIED_EVENTS"
  const PARSE_FAILURE := "PARSE_FAILURE"
  const INTERNAL_ERROR := "INTERNAL_ERROR"
  const PREVIEW_IMAGE := "/preview.jpg"
}
