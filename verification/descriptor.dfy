/** The form checks of the build step's descriptor. */
module Descriptor {
  import opened Text

  /** The verdict of a form check, with the message shown next to the field. */
  datatype FormValidation = FormOk | FormWarning(message: string) | FormError(message: string)

  const MissingFileName: string := "Please set a selenese script filename"
  const FileNotFound: string := "File is not exixts."
  const InvalidUrl: string := "This url is not valid."

  /** `doCheckSeleneseFile`: a missing file name is an error; a name whose
      file `fileExists` denies only draws a warning, since the file may appear
      on the build agent later. */
  function DoCheckSeleneseFile(value: JString, fileExists: string -> bool): (r: FormValidation)
    ensures r.FormError? <==> IsEmpty(value)
    ensures r.FormWarning? <==> !IsEmpty(value) && !fileExists(value.chars)
    ensures r.FormOk? <==> !IsEmpty(value) && fileExists(value.chars)
    ensures r.FormError? ==> r.message == MissingFileName
    ensures r.FormWarning? ==> r.message == FileNotFound
  {
    if IsEmpty(value) then FormError(MissingFileName)
    else if !fileExists(value.chars) then FormWarning(FileNotFound)
    else FormOk
  }

  /** `doCheckBaseUrl`: empty means no override and is accepted; anything
      else must satisfy `isValidUrl`, the http/https URL validator of
      commons-validator. */
  function DoCheckBaseUrl(value: JString, isValidUrl: string -> bool): (r: FormValidation)
    ensures r.FormOk? || r == FormError(InvalidUrl)
    ensures IsEmpty(value) ==> r.FormOk?
    ensures r.FormOk? <==> IsEmpty(value) || isValidUrl(value.chars)
  {
    if IsEmpty(value) || isValidUrl(value.chars) then FormOk else FormError(InvalidUrl)
  }
}
